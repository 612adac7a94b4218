/** Semaphores and mutexes: what every operation on them keeps. */
module Locks {

  import opened Ids
  import opened Lists
  import opened Threads

  const SEM_VALUE_MAX: nat := 0xffff
  const MUTEX_HOLD_MAX: nat := 0xff
  const NO_PRIORITY: nat := 0xff

  datatype Owner = Nobody | By(tid: Tid)

  datatype Sem = Sem(value: nat, fifo: bool)

  datatype Mutex = Mutex(value: nat, owner: Owner, original: nat, hold: nat, fifo: bool)

  type Sems = map<Oid, Sem>
  type Mutexes = map<Oid, Mutex>

  function Waiters(lists: Table, o: Oid): seq<Tid> {
    if WaitList(o) in lists then lists[WaitList(o)] else []
  }

  // ----- the objects themselves -----

  /** A semaphore with units left has no waiter. */
  ghost predicate SemFits(s: Sem, waiters: seq<Tid>) {
    s.value <= SEM_VALUE_MAX && (s.value > 0 ==> waiters == [])
  }

  /** value is 1 exactly when nobody owns the mutex, exactly when it is not held. */
  ghost predicate MutexFits(m: Mutex, waiters: seq<Tid>, tids: set<Tid>) {
    && m.value <= 1 && m.hold <= MUTEX_HOLD_MAX
    && (m.value == 1 <==> m.owner == Nobody) && (m.owner == Nobody <==> m.hold == 0)
    && (m.owner == Nobody ==> waiters == [])
    && (m.owner.By? ==> m.owner.tid in tids && m.owner.tid !in waiters && m.original < PRIORITIES)
  }

  ghost predicate ObjectsFit(tids: set<Tid>, lists: Table, sems: Sems, mutexes: Mutexes) {
    && (forall o :: o in sems ==> o !in mutexes && WaitList(o) in lists && SemFits(sems[o], Waiters(lists, o)))
    && (forall o :: o in mutexes ==> WaitList(o) in lists && MutexFits(mutexes[o], Waiters(lists, o), tids))
  }

  // ----- calls that have blocked and not yet returned -----

  /** What t waits for has been handed to it. */
  ghost predicate Granted(mutexes: Mutexes, owed: set<Tid>, t: Tid, o: Oid) {
    if o in mutexes then mutexes[o].owner == By(t) else t in owed
  }

  /** Of a blocked call that no longer waits, the error tells whether it was granted,
      unless rt_thread_resume forced it to go on: then it was not granted without error. */
  ghost predicate CallFits(error: Error, waiting: bool, granted: bool, forced: bool) {
    if waiting || forced then error == EOK && !granted && !(waiting && forced) else granted <==> error == EOK
  }

  predicate WaitsFor(link: Links, t: Tid, o: Oid) {
    t in link && link[t] == WaitList(o)
  }

  /** t, if its call waits: when it is made to go on, it goes on without what it waits
      for. */
  ghost function Cheated(link: Links, pend: map<Tid, Oid>, t: Tid): set<Tid> {
    if t in pend && WaitsFor(link, t, pend[t]) then {t} else {}
  }

  /** Calls that have blocked and not returned. A thread in a wait list without one is
      there from a call that returned too early. */
  ghost predicate CallsFit(thr: Pool, link: Links, alarm: map<Tid, nat>, mutexes: Mutexes, pend: map<Tid, Oid>,
                           owed: set<Tid>, forced: set<Tid>) {
    && (forall t :: t in pend ==>
         t in thr && CallFits(thr[t].error, WaitsFor(link, t, pend[t]), Granted(mutexes, owed, t, pend[t]),
           t in forced))
    && (forall t :: t in link && link[t].WaitList? && t in pend ==> pend[t] == link[t].obj)
    && (forall t :: t in owed ==> t in pend && pend[t] !in mutexes)
    && (forall t :: t in forced ==> t in pend)
    && (forall t :: t in alarm && t in pend ==> WaitsFor(link, t, pend[t]))
  }

  /** Threads that were woken with a unit of s and have not returned yet. */
  ghost function OwedBy(pend: map<Tid, Oid>, owed: set<Tid>, o: Oid): set<Tid> {
    set t | t in owed && t in pend && pend[t] == o
  }

  /** A unit released is either in the value or on its way to one woken thread. */
  ghost predicate SuppliesFit(sems: Sems, pend: map<Tid, Oid>, owed: set<Tid>, supply: map<Oid, int>) {
    forall o :: o in sems ==> o in supply && supply[o] == sems[o].value + |OwedBy(pend, owed, o)|
  }

  // ----- threads that leave a wait list -----

  /** lists' is lists with t unlinked from whatever wait list it was in. */
  ghost predicate Left(lists: Table, lists': Table, t: Tid) {
    && (forall o :: WaitList(o) in lists ==> WaitList(o) in lists')
    && (forall o :: Waiters(lists', o) == Without(Waiters(lists, o), t))
  }

  ghost predicate SameWaiters(lists: Table, lists': Table) {
    && (forall o :: WaitList(o) in lists ==> WaitList(o) in lists')
    && (forall o :: Waiters(lists', o) == Waiters(lists, o))
  }

  lemma DroppedLeft(lists: Table, link: Links, t: Tid)
    requires Linked(lists, link)
    ensures Left(lists, Dropped(lists, link, t), t)
  {
    forall o | !(t in link && link[t] == WaitList(o))
      ensures t !in Waiters(lists, o)
      ensures Without(Waiters(lists, o), t) == Waiters(lists, o)
    {
      WithoutAbsent(Waiters(lists, o), t);
    }
  }

  lemma LeftOut(lists: Table, lists': Table, t: Tid, o: Oid)
    requires Left(lists, lists', t)
    ensures t !in Waiters(lists', o)
  {
  }

  lemma LeftLater(lists: Table, mid: Table, lists': Table, t: Tid)
    requires SameWaiters(lists, mid) && Left(mid, lists', t)
    ensures Left(lists, lists', t)
  {
  }

  lemma MovedLeft(lists: Table, link: Links, t: Tid, p: nat)
    requires Linked(lists, link)
    ensures Left(lists, Moved(lists, link, t, p), t)
  {
    DroppedLeft(lists, link, t);
    hide Linked, Dropped, Without;
  }

  lemma InOneRing(lists: Table, link: Links, t: Tid, o: Oid, q: Oid)
    requires Linked(lists, link) && t in Waiters(lists, o) && q != o
    ensures t !in Waiters(lists, q)
  {
    assert link[t] == WaitList(o);
  }

  lemma ElsewhereNot(lists: Table, link: Links, t: Tid, o: Oid)
    requires Linked(lists, link) && t in Waiters(lists, o)
    ensures forall q :: q != o ==> t !in Waiters(lists, q)
  {
    forall q | q != o
      ensures t !in Waiters(lists, q)
    {
      InOneRing(lists, link, t, o, q);
    }
  }

  /** t leaves the wait list of o, and no other list loses a thread. */
  lemma OneLeft(lists: Table, link: Links, lists': Table, t: Tid, o: Oid)
    requires Linked(lists, link) && Left(lists, lists', t) && t in Waiters(lists, o)
    ensures |Waiters(lists', o)| < |Waiters(lists, o)|
    ensures forall u :: u in Waiters(lists', o) <==> u in Waiters(lists, o) && u != t
    ensures Waiters(lists', o) == Without(Waiters(lists, o), t)
    ensures forall q :: q != o ==> Waiters(lists', q) == Waiters(lists, q)
  {
    WithoutDistinct(Waiters(lists, o), t);
    forall q | q != o
      ensures Waiters(lists', q) == Waiters(lists, q)
    {
      InOneRing(lists, link, t, o, q);
      WithoutAbsent(Waiters(lists, q), t);
    }
  }

  /** Of the waiters before, those that are no waiters any more were woken with an
      error, and nothing else happened to any thread. */
  ghost predicate Aborted(thr: Pool, thr': Pool, before: seq<Tid>, after: seq<Tid>) {
    && (forall t :: t in thr' <==> t in thr)
    && (forall t :: t in after ==> t in before)
    && (forall t :: t in thr && (t !in before || t in after) ==> thr'[t] == thr[t])
    && (forall t :: t in before && t !in after ==> t in thr && thr'[t] == thr[t].(stat := READY, error := ERROR))
  }

  lemma AbortsNone(thr: Pool, ws: seq<Tid>)
    ensures Aborted(thr, thr, ws, ws)
  {
  }

  lemma StillWaits(thr: Pool, thr': Pool, before: seq<Tid>, after: seq<Tid>, t: Tid)
    requires Aborted(thr, thr', before, after) && t in after && t in thr'
    ensures t in thr && thr'[t] == thr[t]
  {
  }

  lemma AbortsOne(thr: Pool, mid: Pool, thr': Pool, before: seq<Tid>, ws: seq<Tid>, ws': seq<Tid>, t: Tid)
    requires Aborted(thr, mid, before, ws) && t in ws && t in mid
    requires thr' == mid[t := mid[t].(stat := READY, error := ERROR)]
    requires forall u :: u in ws' <==> u in ws && u != t
    ensures Aborted(thr, thr', before, ws')
  {
  }

  /** The threads of priority p, in order. */
  function OfPriority(ts: seq<Tid>, thr: Pool, p: nat): seq<Tid>
    requires forall t :: t in ts ==> t in thr
  {
    if ts == [] then []
    else
      var last := ts[|ts| - 1];
      OfPriority(ts[..|ts| - 1], thr, p) + if thr[last].prio == p then [last] else []
  }

  /** The threads joined the ready lists of their priorities, in order, and their timers are
      stopped. */
  ghost predicate AllWoken(thr: Pool, lists: Table, lists': Table, alarm: map<Tid, nat>, alarm': map<Tid, nat>,
                           ts: seq<Tid>) {
    && (forall t :: t in ts ==> t in thr)
    && (forall q: nat :: q < PRIORITIES ==> ReadyAt(lists', q) == ReadyAt(lists, q) + OfPriority(ts, thr, q))
    && alarm' == alarm - Elements(ts)
  }

  lemma WokenNone(thr: Pool, lists: Table, alarm: map<Tid, nat>)
    ensures AllWoken(thr, lists, lists, alarm, alarm, [])
  {
  }

  lemma WokenOne(thr: Pool, lists0: Table, lists: Table, lists': Table, alarm0: map<Tid, nat>, alarm: map<Tid, nat>,
                 alarm': map<Tid, nat>, ts: seq<Tid>, t: Tid)
    requires AllWoken(thr, lists0, lists, alarm0, alarm, ts)
    requires t in thr && alarm' == alarm - {t}
    requires Requeued(lists, lists, t, NOWHERE) && Requeued(lists, lists', t, thr[t].prio)
    ensures AllWoken(thr, lists0, lists', alarm0, alarm', ts + [t])
  {
    ElementsMore(ts, t);
    PriorityMore(ts, t, thr);
    ListsMore(lists, lists', t, thr[t].prio);
    hide OfPriority, Requeued, Elements, ReadyAt;
    forall q: nat | q < PRIORITIES
      ensures ReadyAt(lists', q) == ReadyAt(lists0, q) + OfPriority(ts + [t], thr, q)
    {
      Associates(ReadyAt(lists0, q), OfPriority(ts, thr, q), if thr[t].prio == q then [t] else []);
    }
  }

  lemma Associates(a: seq<Tid>, b: seq<Tid>, c: seq<Tid>)
    ensures a + b + c == a + (b + c)
  {
  }

  lemma ElementsMore(ts: seq<Tid>, t: Tid)
    ensures forall u :: u in ts + [t] <==> u in ts || u == t
    ensures Elements(ts + [t]) == Elements(ts) + {t}
  {
  }

  lemma PriorityMore(ts: seq<Tid>, t: Tid, thr: Pool)
    requires (forall u :: u in ts ==> u in thr) && t in thr
    ensures forall q :: OfPriority(ts + [t], thr, q) == OfPriority(ts, thr, q) + if thr[t].prio == q then [t] else []
  {
    assert (ts + [t])[..|ts|] == ts;
  }

  lemma ListsMore(lists: Table, lists': Table, t: Tid, p: nat)
    requires Requeued(lists, lists, t, NOWHERE) && Requeued(lists, lists', t, p)
    ensures forall q: nat :: q < PRIORITIES ==> ReadyAt(lists', q) == ReadyAt(lists, q) + if q == p then [t] else []
  {
    forall q: nat | q < PRIORITIES
      ensures ReadyAt(lists', q) == ReadyAt(lists, q) + if q == p then [t] else []
    {
      assert ReadyAt(lists, q) == Without(ReadyAt(lists, q), t);
    }
  }

  lemma ObjectsLeft(tids: set<Tid>, lists: Table, lists': Table, sems: Sems, mutexes: Mutexes, t: Tid)
    requires ObjectsFit(tids, lists, sems, mutexes) && Left(lists, lists', t)
    ensures ObjectsFit(tids, lists', sems, mutexes)
  {
  }

  /** A thread that waits for nothing leaves all wait lists as they are. */
  lemma LeftAlone(lists: Table, link: Links, lists': Table, t: Tid)
    requires Linked(lists, link) && Left(lists, lists', t)
    requires t in link ==> link[t].ReadyList?
    ensures SameWaiters(lists, lists')
  {
    forall o
      ensures Waiters(lists', o) == Waiters(lists, o)
    {
      WithoutAbsent(Waiters(lists, o), t);
    }
  }

  /** The node of a thread that waits for no object is linked elsewhere or nowhere. */
  ghost predicate Aside(link: Links, link': Links, t: Tid) {
    && (t in link ==> link[t].ReadyList?) && (t in link' ==> link'[t].ReadyList?)
    && (forall u :: u != t ==> (u in link <==> u in link') && (u in link ==> link'[u] == link[u]))
  }

  /** A thread changes priority; rings other than the ready lists stay. */
  lemma StepTunes(thr: Pool, lists: Table, link: Links, alarm: map<Tid, nat>, sems: Sems, mutexes: Mutexes,
                  pend: map<Tid, Oid>, owed: set<Tid>, forced: set<Tid>,
                  t: Tid, th: Thread, lists': Table, link': Links)
    requires t in thr && ObjectsFit(thr.Keys, lists, sems, mutexes) &&
      CallsFit(thr, link, alarm, mutexes, pend, owed, forced)
    requires SameWaiters(lists, lists') && th.error == thr[t].error
    requires (lists' == lists && link' == link) || Aside(link, link', t)
    ensures thr[t := th].Keys == thr.Keys
    ensures ObjectsFit(thr.Keys, lists', sems, mutexes) &&
      CallsFit(thr[t := th], link', alarm, mutexes, pend, owed, forced)
  {
    CallsStay(thr, link, alarm, mutexes, pend, owed, forced, thr[t := th], link', alarm);
    hide CallsFit;
  }

  /** Neither an error nor a wait list changed, and no timer was added. */
  lemma CallsStay(thr: Pool, link: Links, alarm: map<Tid, nat>, mutexes: Mutexes, pend: map<Tid, Oid>, owed: set<Tid>,
                  forced: set<Tid>,
                  thr': Pool, link': Links, alarm': map<Tid, nat>)
    requires CallsFit(thr, link, alarm, mutexes, pend, owed, forced)
    requires forall u :: u in pend && u in thr ==> u in thr' && thr'[u].error == thr[u].error
    requires forall u :: u in link && link[u].WaitList? ==> u in link' && link'[u] == link[u]
    requires forall u :: u in link' && link'[u].WaitList? ==> u in link && link'[u] == link[u]
    requires forall u :: u in alarm' && u in pend ==> u in alarm
    ensures CallsFit(thr', link', alarm', mutexes, pend, owed, forced)
  {
  }

  lemma ArmedWaits(thr: Pool, link: Links, alarm: map<Tid, nat>, mutexes: Mutexes, pend: map<Tid, Oid>, owed: set<Tid>,
                   forced: set<Tid>, t: Tid)
    requires CallsFit(thr, link, alarm, mutexes, pend, owed, forced) && t in alarm
    ensures t in pend ==> WaitsFor(link, t, pend[t])
  {
  }

  /** A waiter leaves with an error. */
  lemma CallsFail(thr: Pool, link: Links, alarm: map<Tid, nat>, mutexes: Mutexes, pend: map<Tid, Oid>, owed: set<Tid>,
                  forced: set<Tid>,
                  t: Tid, th: Thread, link': Links)
    requires CallsFit(thr, link, alarm, mutexes, pend, owed, forced)
    requires t in pend ==> WaitsFor(link, t, pend[t])
    requires th.error != EOK && (t in link' ==> link'[t].ReadyList?)
    requires forall u :: u != t ==> (u in link <==> u in link') && (u in link ==> link'[u] == link[u])
    ensures CallsFit(thr[t := th], link', alarm - {t}, mutexes, pend, owed, forced)
  {
  }

  lemma StepFails(thr: Pool, lists: Table, link: Links, alarm: map<Tid, nat>, sems: Sems, mutexes: Mutexes,
                  pend: map<Tid, Oid>, owed: set<Tid>, forced: set<Tid>,
                  t: Tid, th: Thread, lists': Table, link': Links)
    requires t in thr && ObjectsFit(thr.Keys, lists, sems, mutexes) &&
      CallsFit(thr, link, alarm, mutexes, pend, owed, forced)
    requires Left(lists, lists', t) && th.error != EOK
    requires t in pend ==> WaitsFor(link, t, pend[t])
    requires t in link' ==> link'[t].ReadyList?
    requires forall u :: u != t ==> (u in link <==> u in link') && (u in link ==> link'[u] == link[u])
    ensures thr[t := th].Keys == thr.Keys
    ensures ObjectsFit(thr.Keys, lists', sems, mutexes) &&
      CallsFit(thr[t := th], link', alarm - {t}, mutexes, pend, owed, forced)
  {
    ObjectsLeft(thr.Keys, lists, lists', sems, mutexes, t);
    CallsFail(thr, link, alarm, mutexes, pend, owed, forced, t, th, link');
    hide ObjectsFit, CallsFit, Left;
  }

  lemma CallsArm(thr: Pool, link: Links, alarm: map<Tid, nat>, mutexes: Mutexes, pend: map<Tid, Oid>, owed: set<Tid>,
                 forced: set<Tid>, t: Tid, ticks: nat)
    requires CallsFit(thr, link, alarm, mutexes, pend, owed, forced) && t !in pend
    ensures CallsFit(thr, link, alarm[t := ticks], mutexes, pend, owed, forced)
  {
  }

  lemma InheritsLeft(thr: Pool, thr': Pool, lists: Table, lists': Table, mutexes: Mutexes, base: map<Tid, nat>, m: Oid,
                     t: Tid)
    requires Inherits(thr, lists, mutexes, base, m) && Left(lists, lists', t)
    requires forall u :: u in thr ==> u in thr' && thr'[u].prio == thr[u].prio
    ensures Inherits(thr', lists', mutexes, base, m)
  {
    BoostedShrinks(mutexes[m], Waiters(lists, m), t, thr, base);
    BoostedFrame(mutexes[m], Waiters(lists', m), thr, thr', base);
    SoloShrinks(lists, mutexes, lists', mutexes, m);
    hide Boosted, Solo, Without;
  }

  lemma AllInheritLeft(thr: Pool, thr': Pool, lists: Table, lists': Table, mutexes: Mutexes, base: map<Tid, nat>,
                       t: Tid)
    requires Left(lists, lists', t)
    requires forall u :: u in thr ==> u in thr' && thr'[u].prio == thr[u].prio
    ensures forall m :: Inherits(thr, lists, mutexes, base, m) ==> Inherits(thr', lists', mutexes, base, m)
  {
    forall m | Inherits(thr, lists, mutexes, base, m)
      ensures Inherits(thr', lists', mutexes, base, m)
    {
      InheritsLeft(thr, thr', lists, lists', mutexes, base, m, t);
    }
  }

  lemma StepAside(thr: Pool, lists: Table, link: Links, alarm: map<Tid, nat>, sems: Sems, mutexes: Mutexes,
                  pend: map<Tid, Oid>, owed: set<Tid>, forced: set<Tid>,
                  t: Tid, th: Thread, lists': Table, link': Links, alarm': map<Tid, nat>)
    requires t in thr && ObjectsFit(thr.Keys, lists, sems, mutexes) &&
      CallsFit(thr, link, alarm, mutexes, pend, owed, forced)
    requires Left(lists, lists', t) && Aside(link, link', t) && th.error == thr[t].error
    requires forall u :: u in alarm' && u in pend ==> u in alarm
    ensures ObjectsFit(thr[t := th].Keys, lists', sems, mutexes) &&
      CallsFit(thr[t := th], link', alarm', mutexes, pend, owed, forced)
  {
    assert thr[t := th].Keys == thr.Keys;
    ObjectsLeft(thr.Keys, lists, lists', sems, mutexes, t);
    CallsStay(thr, link, alarm, mutexes, pend, owed, forced, thr[t := th], link', alarm');
    hide ObjectsFit, CallsFit, Left;
  }

  lemma CallSettled(thr: Pool, link: Links, alarm: map<Tid, nat>, mutexes: Mutexes, pend: map<Tid, Oid>,
                    owed: set<Tid>, forced: set<Tid>, t: Tid)
    requires CallsFit(thr, link, alarm, mutexes, pend, owed, forced) && t in pend
    ensures t in thr && CallFits(thr[t].error, WaitsFor(link, t, pend[t]), Granted(mutexes, owed, t, pend[t]),
      t in forced)
    ensures pend[t] in mutexes ==> t !in owed
  {
  }

  // ----- a thread that starts to wait -----

  /** o has nothing to give to t. */
  ghost predicate MustWait(sems: Sems, mutexes: Mutexes, t: Tid, o: Oid) {
    if o in mutexes then mutexes[o].owner.By? && mutexes[o].owner != By(t) else o in sems && sems[o].value == 0
  }

  /** t joined the waiters: at the end, or before the first less urgent one. */
  ghost predicate Queues(before: seq<Tid>, after: seq<Tid>, thr: Pool, t: Tid, fifo: bool)
    requires t in thr
  {
    exists k :: 0 <= k <= |before| && after == Splice(before, k, t) && if fifo then k == |before|
      else IsSlot(before, thr, thr[t].prio, k)
  }

  lemma PutWaiters(lists: Table, o: Oid, k: nat, t: Tid)
    requires WaitList(o) in lists && k <= |lists[WaitList(o)]|
    ensures var l := Put(lists, WaitList(o), k, t);
            Waiters(l, o) == Splice(Waiters(lists, o), k, t) && forall q :: q != o ==>
              Waiters(l, q) == Waiters(lists, q)
    ensures lists[WaitList(o)] == Waiters(lists, o)
  {
  }

  lemma SameRing(lists: Table, lists': Table, o: Oid)
    requires SameWaiters(lists, lists') && WaitList(o) in lists
    ensures WaitList(o) in lists' && lists'[WaitList(o)] == Waiters(lists, o)
  {
    assert Waiters(lists', o) == lists'[WaitList(o)];
  }

  lemma SameRings(lists: Table, lists': Table)
    requires SameWaiters(lists, lists')
    ensures forall o :: Waiters(lists', o) == Waiters(lists, o)
  {
  }

  lemma ObjectsJoined(tids: set<Tid>, lists: Table, sems: Sems, mutexes: Mutexes, t: Tid, o: Oid, k: nat)
    requires ObjectsFit(tids, lists, sems, mutexes) && MustWait(sems, mutexes, t, o)
    requires WaitList(o) in lists && k <= |lists[WaitList(o)]|
    ensures ObjectsFit(tids, Put(lists, WaitList(o), k, t), sems, mutexes)
  {
    SpliceMembers(lists[WaitList(o)], k, t);
    hide Splice;
  }

  lemma CallsBlock(thr: Pool, link: Links, alarm: map<Tid, nat>, sems: Sems, mutexes: Mutexes, pend: map<Tid, Oid>,
                   owed: set<Tid>, forced: set<Tid>,
                   t: Tid, th: Thread, o: Oid, alarm': map<Tid, nat>)
    requires CallsFit(thr, link, alarm, mutexes, pend, owed, forced) && MustWait(sems, mutexes, t, o)
    requires t in thr && th.error == EOK && t !in pend
    requires forall u :: u in alarm' ==> u == t || u in alarm
    ensures CallsFit(thr[t := th], link[t := WaitList(o)], alarm', mutexes, pend[t := o], owed, forced)
  {
  }

  lemma SuppliesBlock(sems: Sems, pend: map<Tid, Oid>, owed: set<Tid>, supply: map<Oid, int>, t: Tid, o: Oid)
    requires SuppliesFit(sems, pend, owed, supply) && t !in owed
    ensures SuppliesFit(sems, pend[t := o], owed, supply)
  {
    forall s
      ensures OwedBy(pend[t := o], owed, s) == OwedBy(pend, owed, s)
    {
    }
  }

  lemma NotOwed(thr: Pool, link: Links, alarm: map<Tid, nat>, mutexes: Mutexes, pend: map<Tid, Oid>, owed: set<Tid>,
                forced: set<Tid>, t: Tid)
    requires CallsFit(thr, link, alarm, mutexes, pend, owed, forced) && t !in pend
    ensures t !in owed
  {
  }

  /** The ledger after t, with or without a unit it was woken with, is done with its
      call. */
  ghost function Spent(sems: Sems, pend: map<Tid, Oid>, owed: set<Tid>, supply: map<Oid, int>, t: Tid): map<Oid, int> {
    if t in owed && t in pend && pend[t] in sems && pend[t] in supply then supply[pend[t] := supply[pend[t]] - 1]
      else supply
  }

  lemma SuppliesSpent(sems: Sems, pend: map<Tid, Oid>, owed: set<Tid>, supply: map<Oid, int>, t: Tid)
    requires SuppliesFit(sems, pend, owed, supply)
    ensures SuppliesFit(sems, pend - {t}, owed - {t}, Spent(sems, pend, owed, supply, t))
  {
    forall o | !(t in owed && t in pend && pend[t] == o)
      ensures OwedBy(pend - {t}, owed - {t}, o) == OwedBy(pend, owed, o)
    {
    }
    if t in owed && t in pend {
      assert OwedBy(pend, owed, pend[t]) == OwedBy(pend - {t}, owed - {t}, pend[t]) + {t};
    }
  }

  /** t is closed: it is in no list and never returns from its call. */
  lemma StepCloses(thr: Pool, lists: Table, link: Links, alarm: map<Tid, nat>, sems: Sems, mutexes: Mutexes,
                   pend: map<Tid, Oid>, owed: set<Tid>, forced: set<Tid>,
                   supply: map<Oid, int>, t: Tid, th: Thread, lists': Table)
    requires t in thr && ObjectsFit(thr.Keys, lists, sems, mutexes) &&
      CallsFit(thr, link, alarm, mutexes, pend, owed, forced)
    requires SuppliesFit(sems, pend, owed, supply) && Left(lists, lists', t)
    ensures thr[t := th].Keys == thr.Keys && ObjectsFit(thr.Keys, lists', sems, mutexes)
    ensures CallsFit(thr[t := th], link - {t}, alarm - {t}, mutexes, pend - {t}, owed - {t}, forced - {t})
    ensures SuppliesFit(sems, pend - {t}, owed - {t}, Spent(sems, pend, owed, supply, t))
  {
    ObjectsLeft(thr.Keys, lists, lists', sems, mutexes, t);
    SuppliesSpent(sems, pend, owed, supply, t);
    hide ObjectsFit, Left, SuppliesFit;
  }

  // ----- units of a semaphore -----

  /** The first waiter is woken with a unit. */
  lemma CallsGrantUnit(thr: Pool, link: Links, alarm: map<Tid, nat>, sems: Sems, mutexes: Mutexes, pend: map<Tid, Oid>,
                       owed: set<Tid>, forced: set<Tid>,
                       t: Tid, th: Thread, s: Oid, link': Links)
    requires CallsFit(thr, link, alarm, mutexes, pend, owed, forced) && WaitsFor(link, t, s) && s !in mutexes
    requires t in thr && th.error == thr[t].error && t in link' && link'[t].ReadyList?
    requires forall u :: u != t ==> (u in link <==> u in link') && (u in link ==> link'[u] == link[u])
    ensures CallsFit(thr[t := th], link', alarm - {t}, mutexes, pend, if t in pend then owed + {t}
      else owed, forced) && t !in owed && (t in pend ==> pend[t] == s)
  {
  }

  lemma SuppliesGrant(sems: Sems, pend: map<Tid, Oid>, owed: set<Tid>, supply: map<Oid, int>, t: Tid, s: Oid)
    requires SuppliesFit(sems, pend, owed, supply) && t !in owed && t in pend && pend[t] == s && s in sems
    ensures s in supply && SuppliesFit(sems, pend, owed + {t}, supply[s := supply[s] + 1])
  {
    assert OwedBy(pend, owed + {t}, s) == OwedBy(pend, owed, s) + {t};
    forall o | o != s
      ensures OwedBy(pend, owed + {t}, o) == OwedBy(pend, owed, o)
    {
    }
  }

  /** rt_thread_resume makes a thread go on. */
  lemma CallsForced(thr: Pool, link: Links, alarm: map<Tid, nat>, mutexes: Mutexes, pend: map<Tid, Oid>,
                    owed: set<Tid>, forced: set<Tid>,
                    t: Tid, th: Thread, link': Links)
    requires CallsFit(thr, link, alarm, mutexes, pend, owed, forced) && t in thr && th.error == thr[t].error
    requires t in link' ==> link'[t].ReadyList?
    requires forall u :: u != t ==> (u in link <==> u in link') && (u in link ==> link'[u] == link[u])
    ensures CallsFit(thr[t := th], link', alarm - {t}, mutexes, pend, owed, forced + Cheated(link, pend, t))
  {
  }

  /** A blocked call returns. */
  lemma CallsReturn(thr: Pool, link: Links, alarm: map<Tid, nat>, mutexes: Mutexes, pend: map<Tid, Oid>,
                    owed: set<Tid>, forced: set<Tid>, t: Tid)
    requires CallsFit(thr, link, alarm, mutexes, pend, owed, forced) && t in pend
    ensures CallsFit(thr, link, alarm, mutexes, pend - {t}, owed - {t}, forced - {t})
  {
  }

  /** The head of a wait list is SUSPENDed there. */
  lemma HeadWaits(thr: Pool, lists: Table, link: Links, group: bv32, alarm: map<Tid, nat>, mutexes: Mutexes,
                  pend: map<Tid, Oid>, owed: set<Tid>, forced: set<Tid>, o: Oid)
    requires Scheduled(thr, lists, link, group, alarm) && CallsFit(thr, link, alarm, mutexes, pend, owed, forced) &&
      Waiters(lists, o) != []
    ensures var t := Waiters(lists, o)[0];
      t in thr && thr[t].stat == SUSPEND && WaitsFor(link, t, o) && (t in pend ==> pend[t] == o)
  {
    assert Waiters(lists, o)[0] in lists[WaitList(o)];
  }

  /** Another value for a semaphore. */
  lemma Recounted(tids: set<Tid>, lists: Table, sems: Sems, mutexes: Mutexes, pend: map<Tid, Oid>, owed: set<Tid>,
                  supply: map<Oid, int>, s: Oid, v: nat)
    requires ObjectsFit(tids, lists, sems, mutexes) && SuppliesFit(sems, pend, owed, supply) && s in sems
    requires v <= SEM_VALUE_MAX && (v > 0 ==> Waiters(lists, s) == [])
    ensures ObjectsFit(tids, lists, sems[s := sems[s].(value := v)], mutexes)
    ensures s in supply
    ensures SuppliesFit(sems[s := sems[s].(value := v)], pend, owed, supply[s := supply[s] + v - sems[s].value])
  {
  }

  // ----- ownership of a mutex -----

  /** Nobody's blocked call depends on who owns m as long as the new owner has none. */
  lemma StepOwns(thr: Pool, lists: Table, link: Links, alarm: map<Tid, nat>, sems: Sems, mutexes: Mutexes,
                 pend: map<Tid, Oid>, owed: set<Tid>, forced: set<Tid>,
                 m: Oid, x: Mutex)
    requires ObjectsFit(thr.Keys, lists, sems, mutexes) && CallsFit(thr, link, alarm, mutexes, pend, owed, forced) &&
      m in mutexes
    requires MutexFits(x, Waiters(lists, m), thr.Keys)
    requires mutexes[m].owner.By? ==> mutexes[m].owner.tid !in pend
    requires x.owner.By? ==> x.owner.tid !in pend
    ensures ObjectsFit(thr.Keys, lists, sems, mutexes[m := x]) &&
      CallsFit(thr, link, alarm, mutexes[m := x], pend, owed, forced)
  {
  }

  /** The first waiter t is woken as the owner of m; before, somebody outside any
      blocked call owned it. */
  lemma StepHandsOver(thr: Pool, lists: Table, link: Links, alarm: map<Tid, nat>, sems: Sems, mutexes: Mutexes,
                      pend: map<Tid, Oid>, owed: set<Tid>, forced: set<Tid>,
                      t: Tid, th: Thread, m: Oid, x: Mutex, lists': Table, link': Links)
    requires CallsFit(thr, link, alarm, mutexes, pend, owed, forced) && m in mutexes
    requires ObjectsFit(thr.Keys, lists', sems, mutexes)
    requires t in thr && WaitsFor(link, t, m) && th.error == thr[t].error && t in link' && link'[t].ReadyList?
    requires forall u :: u != t ==> (u in link <==> u in link') && (u in link ==> link'[u] == link[u])
    requires mutexes[m].owner.By? && mutexes[m].owner.tid !in pend
    requires x.owner == By(t) && x.value == 0 && x.hold == 1 && x.original < PRIORITIES && t !in Waiters(lists', m)
    ensures ObjectsFit(thr.Keys, lists', sems, mutexes[m := x])
    ensures CallsFit(thr[t := th], link', alarm - {t}, mutexes[m := x], pend, owed, forced)
  {
  }

  // ----- priority inheritance -----

  /** The owner is at least as urgent as every waiter and as it was itself when it took
      the mutex; waiters are served by priority. */
  ghost predicate Boosted(m: Mutex, waiters: seq<Tid>, thr: Pool, base: map<Tid, nat>) {
    && !m.fifo && ByPriority(waiters, thr)
    && (forall w :: w in waiters ==> w in thr && w in base && thr[w].prio == base[w])
    && (m.owner.By? ==> OwnerBoosted(m, waiters, thr, base))
  }

  ghost predicate OwnerBoosted(m: Mutex, waiters: seq<Tid>, thr: Pool, base: map<Tid, nat>)
    requires m.owner.By?
  {
    var t := m.owner.tid;
    && t in thr && t in base && m.original == base[t] && thr[t].prio <= m.original
    && forall w :: w in waiters ==> w in thr && thr[t].prio <= thr[w].prio
  }

  /** t contends for o: it owns it or waits for it. */
  ghost predicate Contends(lists: Table, mutexes: Mutexes, t: Tid, o: Oid) {
    o in mutexes && (mutexes[o].owner == By(t) || t in Waiters(lists, o))
  }

  /** No contender of m owns another mutex, and its owner waits for none. */
  ghost predicate Solo(lists: Table, mutexes: Mutexes, m: Oid)
    requires m in mutexes
  {
    forall n :: n in mutexes && n != m ==>
      && (mutexes[n].owner.By? ==> !Contends(lists, mutexes, mutexes[n].owner.tid, m))
      && (mutexes[m].owner.By? ==> mutexes[m].owner.tid !in Waiters(lists, n))
  }

  ghost predicate Inherits(thr: Pool, lists: Table, mutexes: Mutexes, base: map<Tid, nat>, m: Oid) {
    m in mutexes && Boosted(mutexes[m], Waiters(lists, m), thr, base) && Solo(lists, mutexes, m)
  }

  ghost predicate OwnsSome(mutexes: Mutexes, t: Tid) {
    exists m :: m in mutexes && mutexes[m].owner == By(t)
  }

  predicate OwnsOnly(mutexes: Mutexes, t: Tid, m: Oid) {
    forall n :: n in mutexes && n != m ==> mutexes[n].owner != By(t)
  }

  lemma BoostedFrame(m: Mutex, waiters: seq<Tid>, thr: Pool, thr': Pool, base: map<Tid, nat>)
    requires Boosted(m, waiters, thr, base)
    requires forall w :: w in waiters && w in thr ==> w in thr' && thr'[w].prio == thr[w].prio
    requires m.owner.By? ==>
      (m.owner.tid in thr ==> m.owner.tid in thr' && thr'[m.owner.tid].prio == thr[m.owner.tid].prio)
    ensures Boosted(m, waiters, thr', base)
  {
  }

  /** Waiters that leave, in any number, leave the rest in order. */
  lemma BoostedShrinks(m: Mutex, waiters: seq<Tid>, t: Tid, thr: Pool, base: map<Tid, nat>)
    requires Boosted(m, waiters, thr, base)
    ensures Boosted(m, Without(waiters, t), thr, base)
  {
    WithoutKeepsOrder(waiters, thr, t);
    hide ByPriority;
  }

  /** Taking a free mutex. */
  lemma BoostedTaken(m: Mutex, thr: Pool, base: map<Tid, nat>, t: Tid)
    requires !m.fifo && t in thr && t in base && thr[t].prio == base[t]
    ensures Boosted(m.(owner := By(t), original := thr[t].prio, value := 0, hold := 1), [], thr, base)
  {
  }

  /** rt_mutex_take blocks: the owner is raised to the new waiter's priority. */
  lemma BoostedJoined(m: Mutex, waiters: seq<Tid>, thr: Pool, thr': Pool, base: map<Tid, nat>, t: Tid, k: nat)
    requires Boosted(m, waiters, thr, base) && m.owner.By? && m.owner.tid !in waiters
    requires t in thr && t in base && thr[t].prio == base[t] && t != m.owner.tid && t !in waiters
    requires IsSlot(waiters, thr, thr[t].prio, k)
    requires forall w :: w in waiters || w == t ==> w in thr' && thr'[w].prio == thr[w].prio
    requires m.owner.tid in thr && m.owner.tid in thr'
    requires thr'[m.owner.tid].prio == if thr[t].prio < thr[m.owner.tid].prio then thr[t].prio
      else thr[m.owner.tid].prio
    ensures Boosted(m, Splice(waiters, k, t), thr', base)
  {
    BoostedFrame(m.(owner := Nobody), waiters, thr, thr', base);
    assert IsSlot(waiters, thr', thr'[t].prio, k);
    SlotKeepsOrder(waiters, thr', t, k);
    SpliceMembers(waiters, k, t);
    hide ByPriority, IsSlot;
  }

  /** rt_mutex_release hands over: the first waiter is the most urgent one. */
  lemma BoostedHanded(m: Mutex, waiters: seq<Tid>, thr: Pool, base: map<Tid, nat>)
    requires Boosted(m, waiters, thr, base) && waiters != [] && waiters[0] in thr
    ensures Boosted(m.(owner := By(waiters[0]), original := thr[waiters[0]].prio, hold := 1),
      Without(waiters, waiters[0]), thr, base)
  {
    var w := waiters[0];
    BoostedShrinks(m.(owner := Nobody), waiters, w, thr, base);
    forall u | u in Without(waiters, w)
      ensures u in thr && thr[w].prio <= thr[u].prio
    {
      HeadIsLeast(waiters, thr, u);
    }
    assert w in waiters;
    hide ByPriority, Without;
  }

  /** Owners that let go and waiters that leave cannot break Solo. */
  lemma SoloShrinks(lists: Table, mutexes: Mutexes, lists': Table, mutexes': Mutexes, m: Oid)
    requires m in mutexes && Solo(lists, mutexes, m)
    requires mutexes'.Keys == mutexes.Keys
    requires forall n :: n in mutexes ==> mutexes'[n].owner == mutexes[n].owner || mutexes'[n].owner == Nobody
    requires forall n, t :: n in mutexes && t in Waiters(lists', n) ==> t in Waiters(lists, n)
    ensures Solo(lists', mutexes', m)
  {
  }

  /** t starts to own or to wait for m. */
  lemma SoloJoins(lists: Table, mutexes: Mutexes, lists': Table, mutexes': Mutexes, m: Oid, t: Tid, n: Oid)
    requires m in mutexes && n in mutexes && Solo(lists, mutexes, n)
    requires mutexes'.Keys == mutexes.Keys
    requires mutexes'[m].owner == mutexes[m].owner || (mutexes[m].owner == Nobody && mutexes'[m].owner == By(t))
    requires forall k :: k in mutexes && k != m ==>
      mutexes'[k].owner == mutexes[k].owner && Waiters(lists', k) == Waiters(lists, k)
    requires forall u :: u in Waiters(lists', m) ==> u == t || u in Waiters(lists, m)
    requires forall k :: k in mutexes && k != m ==> t !in Waiters(lists, k)
    requires if n == m then OwnsOnly(mutexes, t, m) else mutexes[n].owner != By(t)
    ensures Solo(lists', mutexes', n)
  {
  }

  /** m goes from its owner to the waiter w. */
  lemma SoloHanded(lists: Table, mutexes: Mutexes, lists': Table, mutexes': Mutexes, m: Oid, w: Tid, n: Oid)
    requires m in mutexes && n in mutexes && Solo(lists, mutexes, n)
    requires mutexes'.Keys == mutexes.Keys && w in Waiters(lists, m) && mutexes'[m].owner == By(w)
    requires forall k :: k in mutexes && k != m ==>
      mutexes'[k].owner == mutexes[k].owner && Waiters(lists', k) == Waiters(lists, k)
    requires forall u :: u in Waiters(lists', m) ==> u in Waiters(lists, m)
    requires forall k :: k in mutexes && k != m ==> w !in Waiters(lists, k)
    ensures Solo(lists', mutexes', n)
  {
  }

  lemma StaySame(lists: Table)
    ensures SameWaiters(lists, lists)
  {
  }

  lemma AllInheritSame(thr: Pool, thr': Pool, lists: Table, lists': Table, mutexes: Mutexes, base: map<Tid, nat>)
    requires forall u :: u in thr ==> u in thr' && thr'[u].prio == thr[u].prio
    requires forall o :: o in mutexes ==> Waiters(lists', o) == Waiters(lists, o)
    ensures forall m :: Inherits(thr, lists, mutexes, base, m) ==> Inherits(thr', lists', mutexes, base, m)
  {
    forall m | Inherits(thr, lists, mutexes, base, m)
      ensures Inherits(thr', lists', mutexes, base, m)
    {
      BoostedFrame(mutexes[m], Waiters(lists, m), thr, thr', base);
      SoloShrinks(lists, mutexes, lists', mutexes, m);
      hide Boosted, Solo;
    }
  }

  lemma AllInheritGrown(thr: Pool, thr': Pool, lists: Table, mutexes: Mutexes, base: map<Tid, nat>,
                        base': map<Tid, nat>, t: Tid)
    requires t !in thr && t !in base && t in thr' && thr' == thr[t := thr'[t]] && t in base' &&
      base' == base[t := base'[t]]
    ensures forall m :: Inherits(thr, lists, mutexes, base, m) ==> Inherits(thr', lists, mutexes, base', m)
  {
    forall m | Inherits(thr, lists, mutexes, base, m)
      ensures Inherits(thr', lists, mutexes, base', m)
    {
      BoostedGrown(mutexes[m], Waiters(lists, m), thr, thr', base, base');
      hide Boosted, Solo;
    }
  }

  lemma BoostedGrown(m: Mutex, waiters: seq<Tid>, thr: Pool, thr': Pool, base: map<Tid, nat>, base': map<Tid, nat>)
    requires Boosted(m, waiters, thr, base)
    requires forall u :: u in thr ==> u in thr' && thr'[u] == thr[u]
    requires forall u :: u in base ==> u in base' && base'[u] == base[u]
    ensures Boosted(m, waiters, thr', base')
  {
  }

  /** The priority of a thread that does not contend for m is of no concern to m. */
  lemma InheritsTuned(thr: Pool, lists: Table, lists': Table, mutexes: Mutexes, base: map<Tid, nat>,
                      base': map<Tid, nat>, m: Oid, t: Tid, th: Thread)
    requires Inherits(thr, lists, mutexes, base, m) && SameWaiters(lists, lists') && !Contends(lists, mutexes, t, m)
    requires forall u :: u in base && u != t ==> u in base' && base'[u] == base[u]
    ensures Inherits(thr[t := th], lists', mutexes, base', m)
  {
    BoostedElsewhere(mutexes[m], Waiters(lists, m), thr, base, base', t, th);
    SoloShrinks(lists, mutexes, lists', mutexes, m);
    hide Boosted, Solo;
  }

  lemma AllInheritTuned(thr: Pool, lists: Table, lists': Table, mutexes: Mutexes, base: map<Tid, nat>,
                        base': map<Tid, nat>, t: Tid, th: Thread)
    requires SameWaiters(lists, lists')
    requires forall u :: u in base && u != t ==> u in base' && base'[u] == base[u]
    ensures forall m :: Inherits(thr, lists, mutexes, base, m) && !Contends(lists, mutexes, t, m)
              ==> Inherits(thr[t := th], lists', mutexes, base', m)
  {
    forall m | Inherits(thr, lists, mutexes, base, m) && !Contends(lists, mutexes, t, m)
      ensures Inherits(thr[t := th], lists', mutexes, base', m)
    {
      InheritsTuned(thr, lists, lists', mutexes, base, base', m, t, th);
    }
  }

  /** A new thread: it contends for nothing. */
  lemma StepGrows(thr: Pool, lists: Table, link: Links, alarm: map<Tid, nat>, sems: Sems, mutexes: Mutexes,
                  pend: map<Tid, Oid>, owed: set<Tid>, forced: set<Tid>,
                  t: Tid, th: Thread)
    requires t !in thr && ObjectsFit(thr.Keys, lists, sems, mutexes) &&
      CallsFit(thr, link, alarm, mutexes, pend, owed, forced)
    ensures ObjectsFit(thr[t := th].Keys, lists, sems, mutexes) &&
      CallsFit(thr[t := th], link, alarm, mutexes, pend, owed, forced)
  {
    CallsStay(thr, link, alarm, mutexes, pend, owed, forced, thr[t := th], link, alarm);
  }

  lemma BoostedElsewhere(m: Mutex, waiters: seq<Tid>, thr: Pool, base: map<Tid, nat>, base': map<Tid, nat>, t: Tid,
                         th: Thread)
    requires Boosted(m, waiters, thr, base) && t !in waiters && m.owner != By(t)
    requires forall u :: u in base && u != t ==> u in base' && base'[u] == base[u]
    ensures Boosted(m, waiters, thr[t := th], base')
  {
    BoostedFrame(m, waiters, thr, thr[t := th], base);
    hide ByPriority;
  }

  // ----- who may take a mutex without disturbing another -----

  /** When t takes m, mutex n keeps passing priority on: if n is m, t holds no other
      mutex and has its own priority unless it holds m; otherwise t does not hold n. */
  ghost predicate Orderly(thr: Pool, mutexes: Mutexes, base: map<Tid, nat>, t: Tid, m: Oid, n: Oid) {
    && n in mutexes && t in thr && t in base
    && if n == m then OwnsOnly(mutexes, t, m) && (mutexes[n].owner == By(t) || thr[t].prio == base[t])
      else mutexes[n].owner != By(t)
  }

  /** The hold count does not matter. */
  lemma AllInheritHeld(thr: Pool, lists: Table, mutexes: Mutexes, base: map<Tid, nat>, m: Oid, h: nat)
    requires m in mutexes
    ensures forall n :: Inherits(thr, lists, mutexes, base, n) ==>
      Inherits(thr, lists, mutexes[m := mutexes[m].(hold := h)], base, n)
  {
    forall n | Inherits(thr, lists, mutexes, base, n)
      ensures Inherits(thr, lists, mutexes[m := mutexes[m].(hold := h)], base, n)
    {
      SoloShrinks(lists, mutexes, lists, mutexes[m := mutexes[m].(hold := h)], n);
      hide Solo;
    }
  }

  /** t takes m, which nobody holds. */
  lemma InheritsTaken(thr: Pool, lists: Table, mutexes: Mutexes, base: map<Tid, nat>, t: Tid, m: Oid, x: Mutex, n: Oid)
    requires Inherits(thr, lists, mutexes, base, n) && Orderly(thr, mutexes, base, t, m, n)
    requires m in mutexes && mutexes[m].owner == Nobody && Waiters(lists, m) == []
    requires x == mutexes[m].(value := 0, owner := By(t), original := thr[t].prio, hold := 1)
    requires forall k :: k in mutexes ==> t !in Waiters(lists, k)
    ensures Inherits(thr, lists, mutexes[m := x], base, n)
  {
    SoloJoins(lists, mutexes, lists, mutexes[m := x], m, t, n);
    if n == m { BoostedTaken(mutexes[m], thr, base, t); }
    hide Solo;
  }

  /** t was raised to p where it is more urgent. */
  ghost predicate Raised(thr: Pool, thr': Pool, t: Tid, p: nat) {
    && t in thr && t in thr' && (forall u :: u in thr ==> u in thr' && (u != t ==> thr'[u].prio == thr[u].prio))
    && thr'[t].prio == if p < thr[t].prio then p else thr[t].prio
  }

  /** Of the other threads at most the priority changed. */
  ghost predicate OthersTuned(thr: Pool, thr': Pool, t: Tid) {
    forall u :: u in thr && u != t ==> u in thr' && thr'[u] == thr[u].(prio := thr'[u].prio, mask := thr'[u].mask)
  }

  lemma TunedThen(thr: Pool, mid: Pool, thr': Pool, t: Tid)
    requires OthersTuned(thr, mid, t) && t in thr' && thr' == mid[t := thr'[t]]
    ensures OthersTuned(thr, thr', t)
  {
  }

  lemma RaisedFrame(thr: Pool, thr1: Pool, thr': Pool, t: Tid, p: nat)
    requires Raised(thr, thr1, t, p) && forall u :: u in thr1 ==> u in thr' && thr'[u].prio == thr1[u].prio
    ensures Raised(thr, thr', t, p) && t in thr && t in thr'
  {
  }

  /** t, its error and state aside, waits for m after it raised the owner. */
  lemma InheritsJoined(thr: Pool, thr1: Pool, thr': Pool, lists: Table, lists': Table, mutexes: Mutexes,
                       base: map<Tid, nat>, t: Tid, m: Oid, n: Oid)
    requires Inherits(thr, lists, mutexes, base, n) && Orderly(thr, mutexes, base, t, m, n)
    requires m in mutexes && mutexes[m].owner.By? && mutexes[m].owner.tid !in Waiters(lists, m) &&
      mutexes[m].owner != By(t)
    requires t in thr && Raised(thr, thr1, mutexes[m].owner.tid, thr[t].prio)
    requires forall u :: u in thr1 ==> u in thr' && thr'[u].prio == thr1[u].prio
    requires t in thr1 && Queues(Waiters(lists, m), Waiters(lists', m), thr1, t, mutexes[m].fifo)
    requires forall q :: q != m ==> Waiters(lists', q) == Waiters(lists, q)
    requires forall k :: k in mutexes ==> t !in Waiters(lists, k)
    ensures Inherits(thr', lists', mutexes, base, n)
  {
    hide ByPriority, IsSlot;
    var k :| 0 <= k <= |Waiters(lists, m)| && Waiters(lists', m) == Splice(Waiters(lists, m), k, t)
      && if mutexes[m].fifo then k == |Waiters(lists, m)| else IsSlot(Waiters(lists, m), thr1, thr1[t].prio, k);
    SpliceMembers(Waiters(lists, m), k, t);
    SoloJoins(lists, mutexes, lists', mutexes, m, t, n);
    hide Solo;
    if n == m {
      SlotElsewhere(Waiters(lists, m), thr, thr1, thr[t].prio, k);
      BoostedJoined(mutexes[m], Waiters(lists, m), thr, thr', base, t, k);
    } else {
      BoostedAside(lists, mutexes, thr, thr', base, m, n);
    }
  }

  lemma AllInheritJoined(thr: Pool, thr1: Pool, thr': Pool, lists: Table, lists': Table, mutexes: Mutexes,
                         base: map<Tid, nat>, t: Tid, m: Oid)
    requires m in mutexes && mutexes[m].owner.By? && mutexes[m].owner.tid !in Waiters(lists, m) &&
      mutexes[m].owner != By(t)
    requires t in thr && Raised(thr, thr1, mutexes[m].owner.tid, thr[t].prio)
    requires forall u :: u in thr1 ==> u in thr' && thr'[u].prio == thr1[u].prio
    requires t in thr1 && Queues(Waiters(lists, m), Waiters(lists', m), thr1, t, mutexes[m].fifo)
    requires forall q :: q != m ==> Waiters(lists', q) == Waiters(lists, q)
    requires forall k :: k in mutexes ==> t !in Waiters(lists, k)
    requires forall w :: w in Waiters(lists, m) ==> w in thr
    ensures forall n :: Inherits(thr, lists, mutexes, base, n) && Orderly(thr, mutexes, base, t, m, n)
              ==> Inherits(thr', lists', mutexes, base, n)
    ensures Queues(Waiters(lists, m), Waiters(lists', m), thr, t, mutexes[m].fifo)
  {
    forall n | Inherits(thr, lists, mutexes, base, n) && Orderly(thr, mutexes, base, t, m, n)
      ensures Inherits(thr', lists', mutexes, base, n)
    {
      InheritsJoined(thr, thr1, thr', lists, lists', mutexes, base, t, m, n);
    }
    QueuesElsewhere(Waiters(lists, m), Waiters(lists', m), thr, thr1, t, mutexes[m].fifo);
  }

  lemma SlotElsewhere(s: seq<Tid>, thr: Pool, thr': Pool, p: nat, k: nat)
    requires IsSlot(s, thr', p, k) && forall w :: w in s ==> w in thr && w in thr' && thr'[w].prio == thr[w].prio
    ensures IsSlot(s, thr, p, k)
  {
    forall i | 0 <= i < |s|
      ensures s[i] in thr && thr'[s[i]].prio == thr[s[i]].prio
    {
      assert s[i] in s;
    }
  }

  lemma QueuesElsewhere(before: seq<Tid>, after: seq<Tid>, thr: Pool, thr': Pool, t: Tid, fifo: bool)
    requires t in thr && t in thr' && thr'[t].prio == thr[t].prio && Queues(before, after, thr', t, fifo)
    requires forall w :: w in before ==> w in thr && w in thr' && thr'[w].prio == thr[w].prio
    ensures Queues(before, after, thr, t, fifo)
  {
    hide IsSlot;
    var k :| 0 <= k <= |before| && after == Splice(before, k, t) && if fifo then k == |before|
      else IsSlot(before, thr', thr'[t].prio, k);
    if !fifo { SlotElsewhere(before, thr, thr', thr[t].prio, k); }
  }

  /** Taking m is as orderly after the thread reset its error as before. */
  lemma OrderlyAlike(thr: Pool, thr': Pool, mutexes: Mutexes, base: map<Tid, nat>, t: Tid, m: Oid)
    requires t in thr ==> t in thr' && thr'[t].prio == thr[t].prio
    ensures forall n :: Orderly(thr, mutexes, base, t, m, n) ==> Orderly(thr', mutexes, base, t, m, n)
  {
  }

  /** The owner of m contends for no other n, so its priority does not matter to n. */
  lemma BoostedAside(lists: Table, mutexes: Mutexes, thr: Pool, thr': Pool, base: map<Tid, nat>, m: Oid, n: Oid)
    requires Inherits(thr, lists, mutexes, base, n) && m in mutexes && m != n && mutexes[m].owner.By?
    requires forall u :: u in thr && u != mutexes[m].owner.tid ==> u in thr' && thr'[u].prio == thr[u].prio
    ensures Boosted(mutexes[n], Waiters(lists, n), thr', base)
  {
    BoostedFrame(mutexes[n], Waiters(lists, n), thr, thr', base);
    hide Boosted;
  }

  /** The owner of m, back at its own priority, hands m to the first waiter. */
  lemma InheritsHanded(thr: Pool, thr': Pool, lists: Table, lists': Table, mutexes: Mutexes, base: map<Tid, nat>,
                       m: Oid, w: Tid, x: Mutex, n: Oid)
    requires Inherits(thr, lists, mutexes, base, n) && m in mutexes && mutexes[m].owner.By?
    requires Waiters(lists, m) != [] && w == Waiters(lists, m)[0] && w in thr &&
      mutexes[m].owner.tid !in Waiters(lists, m)
    requires forall u :: u in thr && u != mutexes[m].owner.tid ==> u in thr' && thr'[u].prio == thr[u].prio
    requires x == mutexes[m].(owner := By(w), original := thr[w].prio, hold := 1)
    requires Left(lists, lists', w) && forall k :: k in mutexes && k != m ==> w !in Waiters(lists, k)
    ensures Inherits(thr', lists', mutexes[m := x], base, n)
  {
    forall k | k in mutexes && k != m
      ensures Waiters(lists', k) == Waiters(lists, k)
    {
      WithoutAbsent(Waiters(lists, k), w);
    }
    SoloHanded(lists, mutexes, lists', mutexes[m := x], m, w, n);
    hide Solo, ByPriority;
    if n == m {
      BoostedHanded(mutexes[m], Waiters(lists, m), thr, base);
      BoostedFrame(x, Waiters(lists', m), thr, thr', base);
    } else {
      BoostedAside(lists, mutexes, thr, thr', base, m, n);
    }
  }

  /** The owner of m, back at its own priority, lets go of m, which nobody waits for. */
  lemma InheritsFreed(thr: Pool, thr': Pool, lists: Table, lists': Table, mutexes: Mutexes, base: map<Tid, nat>,
                      m: Oid, x: Mutex, n: Oid)
    requires Inherits(thr, lists, mutexes, base, n) && m in mutexes && mutexes[m].owner.By? && Waiters(lists, m) == []
    requires forall u :: u in thr && u != mutexes[m].owner.tid ==> u in thr' && thr'[u].prio == thr[u].prio
    requires x.owner == Nobody && x.fifo == mutexes[m].fifo && SameWaiters(lists, lists')
    ensures Inherits(thr', lists', mutexes[m := x], base, n)
  {
    SoloShrinks(lists, mutexes, lists', mutexes[m := x], n);
    hide Solo;
    if n != m { BoostedAside(lists, mutexes, thr, thr', base, m, n); }
  }

  lemma AllInheritHanded(thr: Pool, thr': Pool, lists: Table, lists': Table, mutexes: Mutexes, base: map<Tid, nat>,
                         m: Oid, w: Tid, x: Mutex)
    requires m in mutexes && mutexes[m].owner.By?
    requires Waiters(lists, m) != [] && w == Waiters(lists, m)[0] && w in thr &&
      mutexes[m].owner.tid !in Waiters(lists, m)
    requires forall u :: u in thr && u != mutexes[m].owner.tid ==> u in thr' && thr'[u].prio == thr[u].prio
    requires x == mutexes[m].(owner := By(w), original := thr[w].prio, hold := 1)
    requires Left(lists, lists', w) && forall k :: k != m ==> w !in Waiters(lists, k)
    ensures forall n :: Inherits(thr, lists, mutexes, base, n) ==> Inherits(thr', lists', mutexes[m := x], base, n)
  {
    forall n | Inherits(thr, lists, mutexes, base, n)
      ensures Inherits(thr', lists', mutexes[m := x], base, n)
    {
      InheritsHanded(thr, thr', lists, lists', mutexes, base, m, w, x, n);
    }
  }

  lemma AllInheritFreed(thr: Pool, thr': Pool, lists: Table, lists': Table, mutexes: Mutexes, base: map<Tid, nat>,
                        m: Oid, x: Mutex)
    requires m in mutexes && mutexes[m].owner.By? && Waiters(lists, m) == []
    requires forall u :: u in thr && u != mutexes[m].owner.tid ==> u in thr' && thr'[u].prio == thr[u].prio
    requires x.owner == Nobody && x.fifo == mutexes[m].fifo && SameWaiters(lists, lists')
    ensures forall n :: Inherits(thr, lists, mutexes, base, n) ==> Inherits(thr', lists', mutexes[m := x], base, n)
  {
    forall n | Inherits(thr, lists, mutexes, base, n)
      ensures Inherits(thr', lists', mutexes[m := x], base, n)
    {
      InheritsFreed(thr, thr', lists, lists', mutexes, base, m, x, n);
    }
  }

  // ----- threads at their own priority -----

  ghost predicate Rested(thr: Pool, mutexes: Mutexes, base: map<Tid, nat>) {
    forall t :: t in thr ==>
      t in base && (thr[t].prio == base[t] || exists m :: m in mutexes && mutexes[m].owner == By(t))
  }

  /** Neither priorities nor owners changed. */
  lemma RestedFrame(thr: Pool, thr': Pool, mutexes: Mutexes, mutexes': Mutexes, base: map<Tid, nat>)
    requires Rested(thr, mutexes, base)
    requires forall t :: t in thr' ==> t in thr && thr'[t].prio == thr[t].prio
    requires forall m :: m in mutexes ==> m in mutexes' && mutexes'[m].owner == mutexes[m].owner
    ensures Rested(thr', mutexes', base)
  {
    forall t | t in thr'
      ensures thr'[t].prio == base[t] || exists m :: m in mutexes' && mutexes'[m].owner == By(t)
    {
      if thr[t].prio != base[t] {
        var m :| m in mutexes && mutexes[m].owner == By(t);
        assert m in mutexes' && mutexes'[m].owner == By(t);
      }
    }
  }

  /** No thread but the owner changed priority. */
  ghost predicate OnlyOwnerTuned(thr: Pool, thr': Pool, owner: Owner) {
    && (forall t :: t in thr' <==> t in thr)
    && forall t :: t in thr && owner != By(t) ==> thr'[t].prio == thr[t].prio
  }

  /** A thread whose priority changed owns a mutex or is back at its own priority. */
  lemma RestedStep(thr: Pool, thr': Pool, mutexes: Mutexes, mutexes': Mutexes, base: map<Tid, nat>)
    requires Rested(thr, mutexes, base) && mutexes.Keys == mutexes'.Keys
    requires forall t :: t in thr' ==> t in thr
    requires forall t :: t in thr' && thr'[t].prio != thr[t].prio ==>
               (t in base && thr'[t].prio == base[t]) || exists m :: m in mutexes' && mutexes'[m].owner == By(t)
    requires forall m, t :: t in thr' && m in mutexes && mutexes[m].owner == By(t) && mutexes'[m].owner != By(t) ==>
               t in base && thr'[t].prio == base[t]
    ensures Rested(thr', mutexes', base)
  {
    forall t | t in thr'
      ensures t in base && (thr'[t].prio == base[t] || exists m :: m in mutexes' && mutexes'[m].owner == By(t))
    {
      if thr'[t].prio == thr[t].prio && thr[t].prio != base[t] {
        var m :| m in mutexes && mutexes[m].owner == By(t);
        assert m in mutexes';
      }
    }
  }

  lemma RaisedOnly(thr: Pool, thr': Pool, owner: Tid, p: nat)
    requires Raised(thr, thr', owner, p) && thr'.Keys == thr.Keys
    ensures OnlyOwnerTuned(thr, thr', By(owner))
  {
  }

  lemma ErrsOnly(thr: Pool, t: Tid, e: Error, owner: Owner)
    requires t in thr
    ensures OnlyOwnerTuned(thr, thr[t := thr[t].(error := e)], owner)
  {
  }

  lemma RestedTaken(thr: Pool, thr': Pool, mutexes: Mutexes, mutexes': Mutexes, base: map<Tid, nat>, m: Oid)
    requires Rested(thr, mutexes, base) && m in mutexes && OnlyOwnerTuned(thr, thr', mutexes[m].owner)
    requires mutexes'.Keys == mutexes.Keys && forall n :: n in mutexes ==>
      mutexes[n].owner == Nobody || mutexes'[n].owner == mutexes[n].owner
    ensures Rested(thr', mutexes', base)
  {
    RestedStep(thr, thr', mutexes, mutexes', base);
  }

  lemma RestedReleased(thr: Pool, thr': Pool, mutexes: Mutexes, mutexes': Mutexes, base: map<Tid, nat>, m: Oid, t: Tid)
    requires Rested(thr, mutexes, base) && OnlyOwnerTuned(thr, thr', By(t)) && t in thr'
    requires mutexes'.Keys == mutexes.Keys && forall n :: n in mutexes && n != m ==>
      mutexes'[n].owner == mutexes[n].owner
    requires m in mutexes && if mutexes'[m].owner == mutexes[m].owner then thr'[t].prio == thr[t].prio
      else mutexes[m].owner == By(t) && t in base && thr'[t].prio == base[t]
    ensures Rested(thr', mutexes', base)
  {
    RestedStep(thr, thr', mutexes, mutexes', base);
  }

  /** A thread that owns no other mutex than m takes m in good order. */
  lemma OrderlyAll(thr: Pool, mutexes: Mutexes, base: map<Tid, nat>, t: Tid, m: Oid)
    requires Rested(thr, mutexes, base) && t in thr && m in mutexes && OwnsOnly(mutexes, t, m)
    ensures forall n :: n in mutexes ==> Orderly(thr, mutexes, base, t, m, n)
  {
    if mutexes[m].owner != By(t) {
      assert !exists n :: n in mutexes && mutexes[n].owner == By(t);
    }
  }

  // ----- start -----

  function StartSems(values: map<Oid, nat>, fifos: map<Oid, bool>): Sems
    requires values.Keys <= fifos.Keys
  {
    map o | o in values :: Sem(values[o], fifos[o])
  }

  function StartMutexes(fifos: map<Oid, bool>): Mutexes {
    map o | o in fifos :: Mutex(1, Nobody, NO_PRIORITY, 0, fifos[o])
  }

  lemma StartObjects(idle: Tid, objs: set<Oid>, sems: Sems, mutexes: Mutexes, supply: map<Oid, int>)
    requires objs == sems.Keys + mutexes.Keys && sems.Keys !! mutexes.Keys
    requires forall o :: o in sems ==> sems[o].value <= SEM_VALUE_MAX && o in supply && supply[o] == sems[o].value
    requires forall o :: o in mutexes ==> mutexes[o].value == 1 && mutexes[o].owner == Nobody && mutexes[o].hold == 0
    ensures ObjectsFit({idle}, StartLists(idle, objs), sems, mutexes)
    ensures CallsFit(StartPool(idle), StartLinks(idle), map[], mutexes, map[], {}, {})
    ensures SuppliesFit(sems, map[], {}, supply)
  {
    StartWaiters(idle, objs);
    hide StartLists, Waiters;
    forall o
      ensures OwedBy(map[], {}, o) == {}
    {
    }
  }

  lemma StartWaiters(idle: Tid, objs: set<Oid>)
    ensures forall o: nat :: Waiters(StartLists(idle, objs), o) == []
  {
  }

  lemma StartInherits(idle: Tid, objs: set<Oid>, mutexes: Mutexes, base: map<Tid, nat>)
    requires forall o :: o in mutexes ==> mutexes[o].owner == Nobody
    requires idle in base && base[idle] == PRIORITIES - 1
    ensures Rested(StartPool(idle), mutexes, base)
    ensures forall m :: m in mutexes && !mutexes[m].fifo ==>
      Inherits(StartPool(idle), StartLists(idle, objs), mutexes, base, m)
  {
    StartWaiters(idle, objs);
    hide StartLists, Waiters;
  }
}
