/** The kernel's waiting and scheduling state machine: scheduler.c, thread.c, the tick
    of clock.c, and the semaphores and mutexes of ipc.c.

    Each method is one region that runs with interrupts disabled, so a run is any
    interleaving of methods. A call that blocks is cut where it calls rt_schedule:
    the first part returns Blocked, the second part (`...Return`) runs when the
    thread is scheduled again. `resched` says that the caller goes on to rt_schedule.
 */
module Kernel {

  import opened Bits
  import opened Ids
  import opened Lists
  import opened Locks
  import opened Threads
  import opened Words

  datatype Outcome = Done(error: Error) | Blocked

  class System {
    var thr: Pool
    var lists: Table
    var link: Links
    var group: bv32           // rt_thread_ready_priority_group
    var alarm: map<Tid, nat>  // thread timers that run, with their period
    var current: Tid          // rt_current_thread
    var lockNest: nat         // rt_scheduler_lock_nest
    var sems: Sems
    var mutexes: Mutexes
    var pend: map<Tid, Oid>   // what each thread inside a blocked call asked for
    const idle: Tid

    ghost var owed: set<Tid>       // threads woken with a semaphore unit
    ghost var forced: set<Tid>     // threads that rt_thread_resume took out of their wait
    ghost var supply: map<Oid, int>
    ghost var base: map<Tid, nat>  // priority as last set by startup or control

    ghost predicate Core()
      reads this
    {
      && Scheduled(thr, lists, link, group, alarm)
      && current in thr && idle in thr && thr[idle].stat == READY
    }

    ghost predicate Objects()
      reads this`thr, this`lists, this`link, this`alarm, this`sems, this`mutexes, this`pend, this`owed, this`forced,
        this`supply, this`base
    {
      && ObjectsFit(thr.Keys, lists, sems, mutexes)
      && CallsFit(thr, link, alarm, mutexes, pend, owed, forced)
      && SuppliesFit(sems, pend, owed, supply)
      && base.Keys == thr.Keys
    }

    ghost predicate Valid()
      reads this
    {
      Core() && Objects()
    }

    ghost predicate Inherits(m: Oid)
      reads this`thr, this`lists, this`mutexes, this`base
    {
      Locks.Inherits(thr, lists, mutexes, base, m)
    }

    /** Every mutex passes priority on, and a thread that owns none has the priority that
        it was last given. */
    ghost predicate Disciplined()
      reads this`thr, this`lists, this`mutexes, this`base
    {
      (forall m :: m in mutexes ==> Inherits(m)) && Rested(thr, mutexes, base)
    }

    /** Mutex m passes priority on, and its owner is READY. */
    ghost predicate OwnerRuns(m: Oid)
      reads this`thr, this`lists, this`mutexes, this`base
    {
      && m in mutexes && Inherits(m) && mutexes[m].owner.By?
      && mutexes[m].owner.tid in thr && thr[mutexes[m].owner.tid].stat == READY
    }

    /** The current thread is not inside a call that blocked. */
    predicate Outside()
      reads this`current, this`thr, this`pend
    {
      current in thr && current !in pend
    }

    /** The current thread is in no wait list. */
    predicate Unqueued()
      reads this`current, this`link
    {
      current in link ==> link[current].ReadyList?
    }

    /** The current thread is READY, or SUSPENDed in no list. Under a locked scheduler it
        may be otherwise, and run. */
    predicate CanWait()
      reads this`current, this`thr, this`link
    {
      current in thr && (thr[current].stat == READY || (thr[current].stat == SUSPEND && current !in link))
    }

    predicate Free()
      reads this`current, this`thr, this`link, this`pend
    {
      Outside() && CanWait()
    }

    /** The system after rt_system_scheduler_start with only the idle thread started.
        RT_ASSERT(value < 0x10000) in rt_sem_init bounds the values. */
    constructor (idle: Tid, values: map<Oid, nat>, flags: map<Oid, bool>, fifos: map<Oid, bool>)
      requires values.Keys == flags.Keys && values.Keys !! fifos.Keys
      requires forall o :: o in values ==> values[o] <= SEM_VALUE_MAX
      ensures Valid() && current == idle && this.idle == idle && lockNest == 0 && pend == map[]
      ensures sems == StartSems(values, flags) && mutexes == StartMutexes(fifos)
      ensures thr == StartPool(idle) && lists == StartLists(idle, values.Keys + fifos.Keys) && link == StartLinks(idle)
      ensures owed == {} && forced == {} && supply == values
      ensures (forall m :: m in fifos ==> !fifos[m]) ==> Disciplined()
    {
      hide Valid, Disciplined, StartLists, StartPool, StartLinks, StartSems, StartMutexes, Mask;
      this.idle := idle;
      thr := StartPool(idle);
      lists := StartLists(idle, values.Keys + fifos.Keys);
      link := StartLinks(idle);
      group := Mask(PRIORITIES - 1);
      alarm := map[];
      current := idle;
      lockNest := 0;
      sems := StartSems(values, flags);
      mutexes := StartMutexes(fifos);
      pend := map[];
      owed := {};
      forced := {};
      supply := values;
      base := map[idle := PRIORITIES - 1];
      new;
      StartsValid(values, flags, fifos);
    }

    lemma StartsValid(values: map<Oid, nat>, flags: map<Oid, bool>, fifos: map<Oid, bool>)
      requires values.Keys == flags.Keys && values.Keys !! fifos.Keys
      requires forall o :: o in values ==> values[o] <= SEM_VALUE_MAX
      requires thr == StartPool(idle) && lists == StartLists(idle, values.Keys + fifos.Keys) && link == StartLinks(idle)
      requires group == Mask(PRIORITIES - 1) && alarm == map[] && current == idle && pend == map[] && owed == {} &&
        forced == {}
      requires sems == StartSems(values, flags) && mutexes == StartMutexes(fifos)
      requires supply == values && base == map[idle := PRIORITIES - 1]
      ensures Valid()
      ensures (forall m :: m in fifos ==> !fifos[m]) ==> Disciplined()
    {
      hide Scheduled, ObjectsFit, CallsFit, SuppliesFit, Mask, StartLists, Locks.Inherits, Rested;
      assert sems.Keys == values.Keys && mutexes.Keys == fifos.Keys;
      StartScheduled(idle, values.Keys + fifos.Keys);
      StartObjects(idle, values.Keys + fifos.Keys, sems, mutexes, supply);
      StartInherits(idle, values.Keys + fifos.Keys, mutexes, base);
      assert thr.Keys == {idle};
      assert base.Keys == thr.Keys;
    }

    // ----- scheduler.c -----

    /** rt_schedule_insert_thread. */
    method Insert(t: Tid)
      requires t in thr && t !in link && ReadyList(thr[t].prio) in lists
      modifies this`thr, this`lists, this`link, this`group
      ensures thr == old(thr)[t := old(thr)[t].(stat := READY)]
      ensures var l := ReadyList(old(thr)[t].prio);
              lists == Put(old(lists), l, |old(lists)[l]|, t) && link == old(link)[t := l]
      ensures group == With(old(group), old(thr)[t].mask)
    {
      hide Put, With;
      var th := thr[t];
      var l := ReadyList(th.prio);
      thr := thr[t := th.(stat := READY)];
      lists := Put(lists, l, |lists[l]|, t);
      link := link[t := l];
      group := With(group, th.mask);
    }

    /** rt_schedule_remove_thread. */
    method Remove(t: Tid)
      requires t in thr
      modifies this`lists, this`link, this`group
      ensures lists == Dropped(old(lists), old(link), t) && link == old(link) - {t}
      ensures group == GroupWithout(lists, old(group), thr[t].prio, thr[t].mask)
    {
      lists := Dropped(lists, link, t);
      link := link - {t};
      group := GroupWithout(lists, group, thr[t].prio, thr[t].mask);
    }

    /** rt_schedule: with the scheduler unlocked the head of the first ready list that
        is not empty becomes the current thread. While a thread waits for a mutex
        whose owner is READY, no thread less urgent than the waiter is picked. */
    method Schedule()
      requires Valid()
      modifies this`current
      ensures Valid()
      ensures lockNest != 0 ==> current == old(current)
      ensures lockNest == 0 ==> current in thr && thr[current].stat == READY && Top(lists, thr[current].prio)
      ensures lockNest == 0 ==> lists[ReadyList(thr[current].prio)][0] == current
      ensures lockNest == 0 ==>
        forall m, w :: OwnerRuns(m) && w in Waiters(lists, m) ==> w in thr && thr[current].prio <= thr[w].prio
    {
      hide Scheduled, Objects, Ffs, Waiters, OwnerRuns, Top;
      if lockNest == 0 {
        IdleIsReady();
        SchedulerMapped();
        LookupFindsTop(lists, group, thr[idle].prio);
        var highest := Ffs(group) - 1;
        TopNonEmpty(lists, highest);
        HeadIsReady(highest);
        current := lists[ReadyList(highest)][0];
        NoInversion();
      }
    }

    lemma SchedulerMapped()
      requires Core()
      ensures Mapped(lists, group)
    {
    }

    /** The top thread is at least as urgent as whoever waits for a READY owner. */
    lemma NoInversion()
      requires Core() && Top(lists, thr[current].prio)
      ensures forall m, w :: OwnerRuns(m) && w in Waiters(lists, m) ==> w in thr && thr[current].prio <= thr[w].prio
    {
      forall m, w | OwnerRuns(m) && w in Waiters(lists, m)
        ensures w in thr && thr[current].prio <= thr[w].prio
      {
        TopIsMostUrgent(mutexes[m].owner.tid);
      }
    }

    lemma IdleIsReady()
      requires Core()
      ensures var p := thr[idle].prio; p < PRIORITIES && ReadyList(p) in lists && lists[ReadyList(p)] != []
    {
      assert idle in lists[link[idle]];
    }

    lemma HeadIsReady(p: nat)
      requires Core() && ReadyList(p) in lists && lists[ReadyList(p)] != []
      ensures var t := lists[ReadyList(p)][0]; t in thr && thr[t].stat == READY && thr[t].prio == p
    {
      assert lists[ReadyList(p)][0] in lists[ReadyList(p)];
    }

    lemma TopIsMostUrgent(t: Tid)
      requires Core() && t in thr && thr[t].stat == READY && Top(lists, thr[current].prio)
      ensures thr[current].prio <= thr[t].prio
    {
      assert t in lists[ReadyList(thr[t].prio)];
    }

    /** rt_enter_critical. */
    method EnterCritical()
      requires Valid()
      modifies this`lockNest
      ensures Valid() && lockNest == old(lockNest) + 1
    {
      lockNest := lockNest + 1;
    }

    /** rt_exit_critical. */
    method ExitCritical() returns (resched: bool)
      requires Valid()
      modifies this`lockNest
      ensures Valid() && resched == (old(lockNest) <= 1)
      ensures lockNest == if old(lockNest) <= 1 then 0 else old(lockNest) - 1
    {
      var nest := lockNest - 1;
      resched := nest <= 0;
      lockNest := if nest <= 0 then 0 else nest;
    }

    // ----- thread.c: suspend, resume, time out, change priority -----

    /** rt_thread_suspend for a READY thread. */
    method Unready(t: Tid)
      requires Core() && t in thr && thr[t].stat == READY
      modifies this`thr, this`lists, this`link, this`group, this`alarm
      ensures Core() <==> t != idle
      ensures thr == old(thr)[t := old(thr)[t].(stat := SUSPEND)]
      ensures lists == Dropped(old(lists), old(link), t) && link == old(link) - {t} && alarm == old(alarm) - {t}
      ensures SameWaiters(old(lists), lists)
    {
      hide Scheduled, Dropped, GroupWithout, MaskFits, Left, Linked, SameWaiters;
      WhereLinked(t);
      LinkedCore();
      DroppedLeft(lists, link, t);
      LeftAlone(lists, link, Dropped(lists, link, t), t);
      ghost var th := thr[t].(stat := SUSPEND);
      MaskOf(thr, lists, link, group, alarm, t);
      SameMask(thr[t], th);
      Leaves(thr, lists, link, group, alarm, t, th, alarm - {t});
      Remove(t);
      thr := thr[t := thr[t].(stat := SUSPEND)];
      alarm := alarm - {t};
    }

    /** rt_thread_suspend. Without its idle thread the scheduler may find nothing to run. */
    method Suspend(t: Tid) returns (e: Error)
      requires Core() && t in thr
      modifies this`thr, this`lists, this`link, this`group, this`alarm
      ensures Core() <==> t != idle
      ensures old(thr)[t].stat != READY ==>
        e == ERROR && thr == old(thr) && lists == old(lists) && link == old(link) && alarm == old(alarm)
      ensures old(thr)[t].stat == READY ==> e == EOK && thr == old(thr)[t := old(thr)[t].(stat := SUSPEND)]
      ensures old(thr)[t].stat == READY ==>
        lists == Dropped(old(lists), old(link), t) && link == old(link) - {t} && alarm == old(alarm) - {t}
      ensures SameWaiters(old(lists), lists) && Requeued(old(lists), lists, t, NOWHERE)
      ensures old(Objects()) ==> Objects()
      ensures forall m :: old(Inherits(m)) ==> Inherits(m)
    {
      hide Scheduled, Dropped, ObjectsFit, CallsFit, SuppliesFit, Linked, Left, SameWaiters, Locks.Inherits, Requeued;
      StaySame(lists);
      if thr[t].stat != READY {
        NotReady(t);
        return ERROR;
      }
      LinkedCore();
      DroppedRequeued(lists, link, t);
      WhereLinked(t);
      LinkedCore();
      DroppedLeft(lists, link, t);
      Unready(t);
      e := EOK;
      if old(Objects()) {
        StepAside(old(thr), old(lists), old(link), old(alarm), sems, mutexes, pend, owed, forced, t, thr[t], lists,
          link, alarm);
      }
      AllInheritLeft(old(thr), thr, old(lists), lists, mutexes, base, t);
    }

    /** A thread that is not READY is in no ready list. */
    lemma NotReady(t: Tid)
      requires Core() && t in thr && thr[t].stat != READY
      ensures Requeued(lists, lists, t, NOWHERE)
    {
      forall q: nat | q < PRIORITIES
        ensures Without(ReadyAt(lists, q), t) == ReadyAt(lists, q)
      {
        WithoutAbsent(ReadyAt(lists, q), t);
      }
    }

    lemma WhereLinked(t: Tid)
      requires Core() && t in thr
      ensures thr[t].stat == READY ==> t in link && link[t] == ReadyList(thr[t].prio)
      ensures thr[t].stat != READY && t in link ==> link[t].WaitList? && thr[t].stat == SUSPEND
    {
    }

    lemma ReadyNotArmed(t: Tid)
      requires Core() && t in thr && thr[t].stat == READY
      ensures t !in alarm && alarm - {t} == alarm
    {
    }

    lemma HasPriority(t: Tid)
      requires Core() && t in thr
      ensures thr[t].prio < PRIORITIES
    {
    }

    lemma ReadyRoom(p: nat)
      requires Core() && p < PRIORITIES
      ensures Linked(lists, link) && ReadyList(p) in lists
    {
    }

    lemma LinkedCore()
      requires Core()
      ensures Linked(lists, link)
    {
    }

    /** rt_thread_resume for a SUSPENDed thread, interrupts kept disabled as inside the
        IPC calls. */
    method Awaken(t: Tid)
      requires Core() && t in thr && thr[t].stat == SUSPEND
      modifies this`thr, this`lists, this`link, this`group, this`alarm
      ensures Core()
      ensures thr == old(thr)[t := old(thr)[t].(stat := READY)]
      ensures lists == Moved(old(lists), old(link), t, old(thr)[t].prio)
      ensures link == old(link)[t := ReadyList(old(thr)[t].prio)] && alarm == old(alarm) - {t}
      ensures Left(old(lists), lists, t) && Requeued(old(lists), lists, t, old(thr)[t].prio)
    {
      hide Scheduled, Dropped, Put, With, MaskFits, Left, Linked, Requeued;
      LinkedCore();
      MovedLeft(lists, link, t, thr[t].prio);
      HasPriority(t);
      ReadyRoom(thr[t].prio);
      MovedRequeued(lists, link, t, thr[t].prio);
      ghost var th := thr[t].(stat := READY);
      MaskOf(thr, lists, link, group, alarm, t);
      SameMask(thr[t], th);
      Wakes(thr, lists, link, group, alarm, t, th);
      lists := Dropped(lists, link, t);
      link := link - {t};
      alarm := alarm - {t};
      Insert(t);
      assert (old(link) - {t})[t := ReadyList(th.prio)] == old(link)[t := ReadyList(th.prio)];
    }

    /** rt_thread_resume. A thread that waits inside a call goes on without what it waits
        for; its call will not report that. */
    method Resume(t: Tid) returns (e: Error)
      requires Valid() && t in thr
      modifies this`thr, this`lists, this`link, this`group, this`alarm, this`forced
      ensures Valid()
      ensures old(thr)[t].stat != SUSPEND ==>
        e == ERROR && thr == old(thr) && lists == old(lists) && link == old(link) && alarm == old(alarm) &&
          forced == old(forced)
      ensures old(thr)[t].stat == SUSPEND ==> e == EOK && thr == old(thr)[t := old(thr)[t].(stat := READY)]
      ensures old(thr)[t].stat == SUSPEND ==>
        lists == Moved(old(lists), old(link), t, old(thr)[t].prio) && Left(old(lists), lists, t)
      ensures old(thr)[t].stat == SUSPEND ==>
        link == old(link)[t := ReadyList(old(thr)[t].prio)] && alarm == old(alarm) - {t}
      ensures old(thr)[t].stat == SUSPEND ==> forced == old(forced) + Cheated(old(link), pend, t)
      ensures forall m :: old(Inherits(m)) ==> Inherits(m)
    {
      hide Scheduled, Moved, ObjectsFit, CallsFit, SuppliesFit, Left, Locks.Inherits, Cheated;
      if thr[t].stat != SUSPEND { return ERROR; }
      Awaken(t);
      assert thr.Keys == old(thr).Keys;
      ObjectsLeft(thr.Keys, old(lists), lists, sems, mutexes, t);
      CallsForced(old(thr), old(link), old(alarm), mutexes, pend, owed, forced, t, thr[t], link);
      AllInheritLeft(old(thr), thr, old(lists), lists, mutexes, base, t);
      forced := forced + Cheated(old(link), pend, t);
      e := EOK;
    }

    /** A SUSPENDed thread is woken with an error. */
    method Abort(t: Tid, e: Error)
      requires Valid() && t in thr && thr[t].stat == SUSPEND && e != EOK
      requires t in pend ==> WaitsFor(link, t, pend[t])
      modifies this`thr, this`lists, this`link, this`group, this`alarm
      ensures Valid()
      ensures thr == old(thr)[t := old(thr)[t].(stat := READY, error := e)]
      ensures lists == Moved(old(lists), old(link), t, old(thr)[t].prio) && Left(old(lists), lists, t)
      ensures link == old(link)[t := ReadyList(old(thr)[t].prio)] && alarm == old(alarm) - {t}
      ensures Requeued(old(lists), lists, t, old(thr)[t].prio)
      ensures forall m :: old(Inherits(m)) ==> Inherits(m)
    {
      hide Scheduled, Moved, ObjectsFit, CallsFit, SuppliesFit, Left, Locks.Inherits, Requeued;
      Errs(thr, lists, link, group, alarm, t, e);
      thr := thr[t := thr[t].(error := e)];
      Awaken(t);
      assert thr == old(thr)[t := thr[t]];
      StepFails(old(thr), old(lists), old(link), old(alarm), sems, mutexes, pend, owed, forced, t, thr[t], lists, link);
      AllInheritLeft(old(thr), thr, old(lists), lists, mutexes, base, t);
    }

    /** rt_thread_timeout, called by rt_timer_check for a thread timer that expired:
        the thread it asserts to be SUSPENDed is. */
    method Expire(t: Tid)
      requires Valid() && t in alarm
      modifies this`thr, this`lists, this`link, this`group, this`alarm
      ensures Valid()
      ensures t in old(thr) && old(thr)[t].stat == SUSPEND
      ensures thr == old(thr)[t := old(thr)[t].(stat := READY, error := ETIMEOUT)]
      ensures lists == Moved(old(lists), old(link), t, old(thr)[t].prio) && Left(old(lists), lists, t)
      ensures link == old(link)[t := ReadyList(old(thr)[t].prio)] && alarm == old(alarm) - {t}
      ensures forall m :: old(Inherits(m)) ==> Inherits(m)
    {
      hide Scheduled, Moved, ObjectsFit, CallsFit, SuppliesFit, Left, Locks.Inherits;
      ArmedIsSuspended(t);
      ArmedWaits(thr, link, alarm, mutexes, pend, owed, forced, t);
      Abort(t, ETIMEOUT);
    }

    lemma ArmedIsSuspended(t: Tid)
      requires Core() && t in alarm
      ensures t in thr && thr[t].stat == SUSPEND && t != idle
    {
    }

    /** rt_thread_control with RT_THREAD_CTRL_CHANGE_PRIORITY. */
    method ChangePriority(t: Tid, prio: nat)
      requires Core() && t in thr && prio < PRIORITIES
      modifies this`thr, this`lists, this`link, this`group
      ensures Core()
      ensures thr == old(thr)[t := old(thr)[t].(prio := prio, mask := Mask(prio))]
      ensures old(thr)[t].stat != READY ==> lists == old(lists) && link == old(link)
      ensures old(thr)[t].stat == READY ==>
        lists == Moved(old(lists), old(link), t, prio) && link == old(link)[t := ReadyList(prio)]
      ensures SameWaiters(old(lists), lists)
      ensures old(Objects()) ==> Objects()
    {
      hide Scheduled, Moved, Mask, SameWaiters, ObjectsFit, CallsFit, SuppliesFit;
      WhereLinked(t);
      if thr[t].stat == READY {
        ShiftPriority(t, prio);
      } else {
        StayAsleep(t, prio);
        thr := thr[t := thr[t].(prio := prio, mask := Mask(prio))];
      }
      if old(Objects()) {
        StepTunes(old(thr), old(lists), old(link), alarm, sems, mutexes, pend, owed, forced, t, thr[t], lists, link);
      }
    }

    lemma StayAsleep(t: Tid, prio: nat)
      requires Core() && t in thr && prio < PRIORITIES && thr[t].stat != READY
      ensures Scheduled(thr[t := thr[t].(prio := prio, mask := Mask(prio))], lists, link, group, alarm)
      ensures SameWaiters(lists, lists)
    {
      hide Scheduled, Mask, MaskFits;
      MaskOf(thr, lists, link, group, alarm, t);
      NewMask(thr[t], prio);
      Retunes(thr, lists, link, group, alarm, t, thr[t].(prio := prio, mask := Mask(prio)));
    }

    /** The READY branch of the priority change. */
    method ShiftPriority(t: Tid, prio: nat)
      requires Core() && t in thr && prio < PRIORITIES && thr[t].stat == READY
      modifies this`thr, this`lists, this`link, this`group
      ensures Core()
      ensures thr == old(thr)[t := old(thr)[t].(prio := prio, mask := Mask(prio))]
      ensures lists == Moved(old(lists), old(link), t, prio) && link == old(link)[t := ReadyList(prio)]
      ensures SameWaiters(old(lists), lists)
    {
      hide Scheduled, Dropped, Put, With, GroupWithout, Mask, MaskFits, SameWaiters, Linked, Left;
      WhereLinked(t);
      LinkedCore();
      MovedLeft(lists, link, t, prio);
      LeftAlone(lists, link, Moved(lists, link, t, prio), t);
      ghost var th := thr[t].(prio := prio, mask := Mask(prio));
      MaskOf(thr, lists, link, group, alarm, t);
      NewMask(thr[t], prio);
      Shifts(thr, lists, link, group, alarm, t, th);
      Remove(t);
      thr := thr[t := thr[t].(prio := prio, mask := Mask(prio))];
      Insert(t);
      assert (old(link) - {t})[t := ReadyList(prio)] == old(link)[t := ReadyList(prio)];
      assert thr == old(thr)[t := th];
    }

    /** A request to rt_thread_control from outside the kernel: besides changing the
        priority it sets what the thread returns to. Mutexes the thread does not
        contend for are not concerned. */
    method Control(t: Tid, prio: nat)
      requires Valid() && t in thr && prio < PRIORITIES
      modifies this`thr, this`lists, this`link, this`group, this`base
      ensures Valid()
      ensures thr == old(thr)[t := old(thr)[t].(prio := prio, mask := Mask(prio))] && base == old(base)[t := prio]
      ensures old(thr)[t].stat != READY ==> lists == old(lists) && link == old(link)
      ensures old(thr)[t].stat == READY ==>
        lists == Moved(old(lists), old(link), t, prio) && link == old(link)[t := ReadyList(prio)]
      ensures forall m :: old(Inherits(m)) && !Contends(old(lists), mutexes, t, m) ==> Inherits(m)
      ensures SameWaiters(old(lists), lists)
    {
      hide Scheduled, Moved, Mask, SameWaiters, ObjectsFit, CallsFit, SuppliesFit, Locks.Inherits, Contends;
      ChangePriority(t, prio);
      base := base[t := prio];
      assert base.Keys == thr.Keys;
      AllInheritTuned(old(thr), old(lists), lists, mutexes, old(base), base, t, thr[t]);
    }

    // ----- thread.c: life of a thread -----

    /** _rt_thread_init. */
    method Init(t: Tid, prio: nat, tick: nat)
      requires Valid() && t !in thr && t !in base && prio < PRIORITIES && tick < WORD
      modifies this`thr, this`base
      ensures Valid()
      ensures thr == old(thr)[t := Thread(INIT, prio, prio, 0, EOK, tick, tick)] && base == old(base)[t := prio]
      ensures forall m :: old(Inherits(m)) ==> Inherits(m)
    {
      hide Scheduled, ObjectsFit, CallsFit, SuppliesFit, Locks.Inherits;
      StepGrows(thr, lists, link, alarm, sems, mutexes, pend, owed, forced, t,
        Thread(INIT, prio, prio, 0, EOK, tick, tick));
      Settles(thr, lists, link, group, alarm, t, Thread(INIT, prio, prio, 0, EOK, tick, tick));
      NotArmed(thr, lists, link, group, alarm, t);
      thr := thr[t := Thread(INIT, prio, prio, 0, EOK, tick, tick)];
      base := base[t := prio];
      AllInheritGrown(old(thr), thr, lists, mutexes, old(base), base, t);
    }

    /** rt_thread_startup up to the scheduling request. */
    method Launch(t: Tid)
      requires Core() && t in thr && thr[t].stat == INIT
      modifies this`thr, this`lists, this`link, this`group, this`alarm
      ensures old(thr)[t].initPrio < PRIORITIES && Core()
      ensures var p := old(thr)[t].initPrio;
              && thr == old(thr)[t := old(thr)[t].(stat := READY, prio := p, mask := Mask(p))]
              && lists == Moved(old(lists), old(link), t, p) && link == old(link)[t := ReadyList(p)]
      ensures t !in old(link) && alarm == old(alarm) && Left(old(lists), lists, t)
    {
      hide Scheduled, Moved, Mask, Left, Linked;
      Fresh(t);
      var p := thr[t].initPrio;
      LinkedCore();
      thr := thr[t := thr[t].(stat := SUSPEND, prio := p, mask := Mask(p))];
      Awaken(t);
    }

    /** rt_thread_startup. */
    method Startup(t: Tid) returns (resched: bool)
      requires Valid() && t in thr && thr[t].stat == INIT
      modifies this`thr, this`lists, this`link, this`group, this`alarm, this`base
      ensures old(thr)[t].initPrio < PRIORITIES && resched && Valid()
      ensures var p := old(thr)[t].initPrio;
              && thr == old(thr)[t := old(thr)[t].(stat := READY, prio := p, mask := Mask(p))]
              && base == old(base)[t := p]
              && lists == Moved(old(lists), old(link), t, p) && link == old(link)[t := ReadyList(p)]
      ensures forall m :: old(Inherits(m)) && !Contends(old(lists), mutexes, t, m) ==> Inherits(m)
      ensures Left(old(lists), lists, t) && alarm == old(alarm)
    {
      hide Scheduled, Moved, Mask, SameWaiters, ObjectsFit, CallsFit, SuppliesFit, Left, Locks.Inherits, Contends,
        Linked;
      LinkedCore();
      Launch(t);
      base := base[t := thr[t].prio];
      resched := true;
      assert base.Keys == thr.Keys;
      LeftAlone(old(lists), old(link), lists, t);
      StepAside(old(thr), old(lists), old(link), old(alarm), sems, mutexes, pend, owed, forced, t, thr[t], lists, link,
        alarm);
      AllInheritTuned(old(thr), old(lists), lists, mutexes, old(base), base, t, thr[t]);
    }

    lemma Fresh(t: Tid)
      requires Core() && t in thr && thr[t].stat == INIT
      ensures var p := thr[t].initPrio;
              p < PRIORITIES && Scheduled(thr[t := thr[t].(stat := SUSPEND, prio := p, mask := Mask(p))], lists, link,
                group, alarm)
      ensures t !in link && t !in alarm && t != idle && alarm - {t} == alarm
    {
      var p := thr[t].initPrio;
      MaskOf(thr, lists, link, group, alarm, t);
      StartMask(thr[t]);
      Settles(thr, lists, link, group, alarm, t, thr[t].(stat := SUSPEND, prio := p, mask := Mask(p)));
    }

    lemma YieldPlace()
      requires Valid() && thr[current].stat == READY
      ensures Requeued(lists, Moved(lists, link, current, thr[current].prio), current, thr[current].prio)
      ensures |ReadyPeers(lists)| <= 1 ==> Requeued(lists, lists, current, thr[current].prio)
    {
      WhereLinked(current);
      HasPriority(current);
      ReadyRoom(thr[current].prio);
      MovedRequeued(lists, link, current, thr[current].prio);
      if |ReadyPeers(lists)| <= 1 { AloneRequeued(lists, link, current, thr[current].prio); }
      hide Requeued, Moved;
    }

    /** rt_thread_yield. */
    method Yield() returns (resched: bool)
      requires Valid()
      modifies this`lists
      ensures Valid()
      ensures resched <==> thr[current].stat == READY && |ReadyPeers(old(lists))| > 1
      ensures resched ==> lists == Moved(old(lists), link, current, thr[current].prio)
      ensures !resched ==> lists == old(lists)
      ensures thr[current].stat == READY ==> Requeued(old(lists), lists, current, thr[current].prio)
      ensures SameWaiters(old(lists), lists)
      ensures forall m :: old(Inherits(m)) ==> Inherits(m)
    {
      hide Scheduled, Moved, SameWaiters, ObjectsFit, CallsFit, SuppliesFit, Left, Locks.Inherits, Linked, Requeued;
      WhereLinked(current);
      LinkedCore();
      if thr[current].stat == READY { YieldPlace(); }
      resched := thr[current].stat == READY && |ReadyPeers(lists)| > 1;
      StaySame(lists);
      if resched {
        Rotates(thr, lists, link, group, alarm, current);
        MovedLeft(lists, link, current, thr[current].prio);
        lists := Moved(lists, link, current, thr[current].prio);
        LeftAlone(old(lists), link, lists, current);
        ObjectsLeft(thr.Keys, old(lists), lists, sems, mutexes, current);
        AllInheritLeft(thr, thr, old(lists), lists, mutexes, base, current);
      }
    }

    /** The ready list that the current thread would be in. */
    function ReadyPeers(table: Table): seq<Tid>
      requires current in thr
      reads this`current, this`thr
    {
      var l := ReadyList(thr[current].prio);
      if l in table then table[l] else []
    }

    /** rt_tick_increase up to the timer check, which Expire models timer by timer. */
    method Tick() returns (resched: bool)
      requires Valid()
      modifies this`thr, this`lists
      ensures Valid()
      ensures var left := if old(thr)[current].leftTick == 0 then WORD - 1 else old(thr)[current].leftTick - 1;
              && thr == old(thr)[current := old(thr)[current].(leftTick := if left == 0 then old(thr)[current].initTick
                else left)]
              && (resched <==> left == 0 && thr[current].stat == READY && |ReadyPeers(old(lists))| > 1)
      ensures resched ==> lists == Moved(old(lists), link, current, thr[current].prio)
      ensures !resched ==> lists == old(lists)
      ensures old(thr)[current].leftTick == 1 && thr[current].stat == READY ==>
        Requeued(old(lists), lists, current, thr[current].prio)
      ensures forall m :: old(Inherits(m)) ==> Inherits(m)
      ensures SameWaiters(old(lists), lists)
    {
      hide Scheduled, Moved, SameWaiters, ObjectsFit, CallsFit, SuppliesFit, Locks.Inherits, Requeued;
      var th := thr[current];
      var left := if th.leftTick == 0 then WORD - 1 else th.leftTick - 1;
      var after := th.(leftTick := if left == 0 then th.initTick else left);
      TicksOnly(after);
      StaySame(lists);
      thr := thr[current := after];
      resched := false;
      if left == 0 {
        resched := Yield();
      }
    }

    lemma TicksOnly(th: Thread)
      requires Valid() && th == thr[current].(leftTick := th.leftTick)
      ensures Scheduled(thr[current := th], lists, link, group, alarm)
      ensures ObjectsFit(thr[current := th].Keys, lists, sems, mutexes)
      ensures CallsFit(thr[current := th], link, alarm, mutexes, pend, owed, forced)
      ensures thr[current := th].Keys == thr.Keys
      ensures forall m :: Inherits(m) ==> Locks.Inherits(thr[current := th], lists, mutexes, base, m)
    {
      assert thr[current := th].Keys == thr.Keys;
      Reclocks(thr, lists, link, group, alarm, current, th);
      CallsStay(thr, link, alarm, mutexes, pend, owed, forced, thr[current := th], link, alarm);
      StaySame(lists);
      AllInheritSame(thr, thr[current := th], lists, lists, mutexes, base);
    }

    /** A closed thread owns a mutex. */
    ghost predicate Orphans(t: Tid)
      reads this`thr, this`mutexes
    {
      t in thr && thr[t].stat == CLOSE && OwnsSome(mutexes, t)
    }

    /** rt_thread_detach. A unit that the thread was woken with is lost, and a mutex that it
        owns keeps it as its owner. */
    method Detach(t: Tid)
      requires Valid() && t in thr
      modifies this`thr, this`lists, this`link, this`group, this`alarm, this`pend, this`owed, this`forced, this`supply
      ensures Valid() <==> t != idle
      ensures thr == old(thr)[t := old(thr)[t].(stat := CLOSE)] && Left(old(lists), lists, t)
      ensures lists == Dropped(old(lists), old(link), t) && link == old(link) - {t}
      ensures alarm == old(alarm) - {t} && pend == old(pend) - {t} && owed == old(owed) - {t} &&
        forced == old(forced) - {t}
      ensures supply == Spent(sems, old(pend), old(owed), old(supply), t)
      ensures Orphans(t) <==> OwnsSome(mutexes, t)
      ensures forall m :: old(Inherits(m)) ==> Inherits(m)
    {
      hide Scheduled, ObjectsFit, CallsFit, SuppliesFit, Left, Linked, Dropped, Locks.Inherits, Spent, OwnsSome;
      Unlinks(t);
      StepCloses(old(thr), old(lists), old(link), old(alarm), sems, mutexes, pend, owed, forced, supply, t, thr[t],
        lists);
      supply := Spent(sems, pend, owed, supply, t);
      pend := pend - {t};
      owed := owed - {t};
      forced := forced - {t};
    }

    /** rt_thread_detach for the scheduler's part. */
    method Unlinks(t: Tid)
      requires Core() && t in thr
      modifies this`thr, this`lists, this`link, this`group, this`alarm
      ensures Core() <==> t != idle
      ensures thr == old(thr)[t := old(thr)[t].(stat := CLOSE)]
      ensures lists == Dropped(old(lists), old(link), t) && link == old(link) - {t} && alarm == old(alarm) - {t}
      ensures Left(old(lists), lists, t)
      ensures forall m :: old(Inherits(m)) ==> Inherits(m)
    {
      hide Scheduled, GroupWithout, Left, Linked, Dropped, Locks.Inherits;
      LinkedCore();
      DroppedLeft(lists, link, t);
      AllInheritLeft(thr, thr[t := thr[t].(stat := CLOSE)], lists, Dropped(lists, link, t), mutexes, base, t);
      if thr[t].stat == CLOSE {
        Closed(t);
        Unlinked(t);
        return;
      }
      ghost var th := thr[t].(stat := CLOSE);
      MaskOf(thr, lists, link, group, alarm, t);
      if thr[t].stat != INIT {
        Leaves(thr, lists, link, group, alarm, t, th, alarm - {t});
        Remove(t);
      } else {
        Settles(thr, lists, link, group, alarm, t, th);
        Unlinked(t);
      }
      alarm := alarm - {t};
      thr := thr[t := thr[t].(stat := CLOSE)];
    }

    lemma Unlinked(t: Tid)
      requires t !in link
      ensures Dropped(lists, link, t) == lists
    {
    }

    lemma Closed(t: Tid)
      requires Core() && t in thr && thr[t].stat == CLOSE
      ensures t !in link && t !in alarm && link - {t} == link && alarm - {t} == alarm &&
        thr[t := thr[t].(stat := CLOSE)] == thr
    {
    }

    /** rt_thread_sleep up to the scheduling request. A thread that is SUSPENDed already, its
        scheduler being locked, only has its timer set anew. */
    method Sleep(tick: nat)
      requires Valid() && Outside() && tick < HALF_TICKS
      modifies this`thr, this`lists, this`link, this`group, this`alarm
      ensures Valid() <==> current != idle && (old(thr)[current].stat == READY || old(thr)[current].stat == SUSPEND)
      ensures old(thr)[current].stat == READY ==> thr == old(thr)[current := old(thr)[current].(stat := SUSPEND)]
      ensures old(thr)[current].stat == READY ==>
        lists == Dropped(old(lists), old(link), current) && link == old(link) - {current}
      ensures old(thr)[current].stat != READY ==> thr == old(thr) && lists == old(lists) && link == old(link)
      ensures alarm == old(alarm)[current := tick] && SameWaiters(old(lists), lists)
      ensures forall m :: old(Inherits(m)) ==> Inherits(m)
    {
      hide Scheduled, Dropped, ObjectsFit, CallsFit, SuppliesFit, Locks.Inherits, SameWaiters;
      var _ := Suspend(current);
      if current == idle {
        assert thr[idle].stat == SUSPEND;
      } else if thr[current].stat == SUSPEND {
        Arms(thr, lists, link, group, alarm, current, tick);
        CallsArm(thr, link, alarm, mutexes, pend, owed, forced, current, tick);
      } else {
        ArmsWrongly(thr, lists, link, group, alarm, current, tick);
      }
      alarm := alarm[current := tick];
      assert alarm == old(alarm)[current := tick];
    }

    /** rt_thread_sleep after its rt_schedule returned. */
    method SleepReturn()
      requires Valid() && Outside()
      modifies this`thr
      ensures Valid()
      ensures thr == old(thr)[current := old(thr)[current].(error := if old(thr)[current].error == ETIMEOUT then EOK
        else old(thr)[current].error)]
      ensures forall m :: old(Inherits(m)) ==> Inherits(m)
    {
      hide Scheduled, ObjectsFit, CallsFit, SuppliesFit, Locks.Inherits;
      SetsError(EOK);
      SetsError(thr[current].error);
      thr := thr[current := thr[current].(error := if thr[current].error == ETIMEOUT then EOK else thr[current].error)];
    }

    /** The running thread may set its own error. */
    lemma SetsError(e: Error)
      requires Valid() && current !in pend
      ensures var thr' := thr[current := thr[current].(error := e)];
              && Scheduled(thr', lists, link, group, alarm) && thr'.Keys == thr.Keys
              && CallsFit(thr', link, alarm, mutexes, pend, owed, forced)
              && forall m :: Inherits(m) ==> Locks.Inherits(thr', lists, mutexes, base, m)
    {
      hide Scheduled, CallsFit, Locks.Inherits, ObjectsFit, SuppliesFit;
      var thr' := thr[current := thr[current].(error := e)];
      Errs(thr, lists, link, group, alarm, current, e);
      CallsStay(thr, link, alarm, mutexes, pend, owed, forced, thr', link, alarm);
      AllInheritSame(thr, thr', lists, lists, mutexes, base);
    }

    // ----- ipc.c: wait lists -----

    /** The search of rt_ipc_list_suspend. */
    method Slot(o: Oid, t: Tid, fifo: bool) returns (k: nat)
      requires Core() && t in thr && WaitList(o) in lists
      ensures k <= |lists[WaitList(o)]|
      ensures fifo ==> k == |lists[WaitList(o)]|
      ensures !fifo ==> IsSlot(lists[WaitList(o)], thr, thr[t].prio, k)
    {
      hide Scheduled;
      var ring := lists[WaitList(o)];
      WaitersExist(o);
      k := |ring|;
      if !fifo {
        k := 0;
        while k < |ring| && thr[ring[k]].prio <= thr[t].prio
          invariant k <= |ring| && forall i :: 0 <= i < k ==> thr[ring[i]].prio <= thr[t].prio
        {
          k := k + 1;
        }
      }
    }

    /** The insertion of rt_ipc_list_suspend. */
    method Join(o: Oid, t: Tid, fifo: bool) returns (ghost k: nat)
      requires Core() && t in thr && thr[t].stat == SUSPEND && t !in link && WaitList(o) in lists
      modifies this`lists, this`link
      ensures Core()
      ensures k <= |old(lists)[WaitList(o)]| && lists == Put(old(lists), WaitList(o), k, t) &&
        link == old(link)[t := WaitList(o)]
      ensures fifo ==> k == |old(lists)[WaitList(o)]|
      ensures !fifo ==> IsSlot(old(lists)[WaitList(o)], thr, thr[t].prio, k)
    {
      hide Scheduled, Put;
      var n := Slot(o, t, fifo);
      Joins(thr, lists, link, group, alarm, t, o, n);
      lists := Put(lists, WaitList(o), n, t);
      link := link[t := WaitList(o)];
      k := n;
    }

    lemma WaitersExist(o: Oid)
      requires Core() && WaitList(o) in lists
      ensures forall i :: 0 <= i < |lists[WaitList(o)]| ==> lists[WaitList(o)][i] in thr
      ensures forall w :: w in Waiters(lists, o) ==> w in thr
    {
      forall i | 0 <= i < |lists[WaitList(o)]|
        ensures lists[WaitList(o)][i] in thr
      {
        assert lists[WaitList(o)][i] in lists[WaitList(o)];
      }
    }

    /** rt_ipc_list_suspend for the current thread. */
    method ListSuspend(o: Oid, fifo: bool) returns (ghost k: nat)
      requires Valid() && Free() && current != idle && MustWait(sems, mutexes, current, o)
      modifies this`thr, this`lists, this`link, this`group, this`alarm
      ensures Core() && ObjectsFit(thr.Keys, lists, sems, mutexes)
      ensures thr == old(thr)[current := old(thr)[current].(stat := SUSPEND)]
      ensures link == old(link)[current := WaitList(o)] && alarm == old(alarm)
      ensures k <= |Waiters(old(lists), o)| && Waiters(lists, o) == Splice(Waiters(old(lists), o), k, current)
      ensures forall q :: q != o ==> Waiters(lists, q) == Waiters(old(lists), q)
      ensures fifo ==> k == |Waiters(old(lists), o)|
      ensures !fifo ==> IsSlot(Waiters(old(lists), o), old(thr), old(thr)[current].prio, k)
      ensures Requeued(old(lists), lists, current, NOWHERE)
    {
      hide Scheduled, Dropped, Splice, Put, Waiters, IsSlot, SameWaiters, ObjectsFit, CallsFit, SuppliesFit,
        Locks.Inherits, Requeued;
      HasWaitList(o);
      if thr[current].stat == READY { ReadyNotArmed(current); }
      var _ := Suspend(current);
      SameRing(old(lists), lists, o);
      SameRings(old(lists), lists);
      label suspended:
      k := Join(o, current, fifo);
      PutWaiters(old@suspended(lists), o, k, current);
      PutReady(old(lists), old@suspended(lists), o, k, current);
      ObjectsJoined(thr.Keys, old@suspended(lists), sems, mutexes, current, o, k);
      SlotAlike(Waiters(old(lists), o), old(thr), thr, current, k);
      assert link == old(link)[current := WaitList(o)];
    }

    /** The current thread, its error reset, waits for o: rt_ipc_list_suspend, and its
        timer when the wait is bounded. */
    method Park(o: Oid, fifo: bool, time: int) returns (ghost k: nat)
      requires Valid() && Free() && current != idle && thr[current].error == EOK
      requires MustWait(sems, mutexes, current, o) && time < HALF_TICKS
      modifies this`thr, this`lists, this`link, this`group, this`alarm, this`pend
      ensures Valid()
      ensures thr == old(thr)[current := old(thr)[current].(stat := SUSPEND)]
      ensures pend == old(pend)[current := o] && link == old(link)[current := WaitList(o)]
      ensures alarm == if time > 0 then old(alarm)[current := time] else old(alarm)
      ensures k <= |Waiters(old(lists), o)| && Waiters(lists, o) == Splice(Waiters(old(lists), o), k, current)
      ensures forall q :: q != o ==> Waiters(lists, q) == Waiters(old(lists), q)
      ensures fifo ==> k == |Waiters(old(lists), o)|
      ensures !fifo ==> IsSlot(Waiters(old(lists), o), old(thr), old(thr)[current].prio, k)
      ensures Requeued(old(lists), lists, current, NOWHERE)
    {
      hide Scheduled, Splice, Waiters, IsSlot, ObjectsFit, CallsFit, SuppliesFit, MustWait, Requeued;
      k := ListSuspend(o, fifo);
      if time > 0 {
        Arms(thr, lists, link, group, alarm, current, time);
        alarm := alarm[current := time];
      }
      CallsBlock(old(thr), old(link), old(alarm), sems, mutexes, pend, owed, forced, current, thr[current], o, alarm);
      NotOwed(old(thr), old(link), old(alarm), mutexes, pend, owed, forced, current);
      SuppliesBlock(sems, pend, owed, supply, current, o);
      pend := pend[current := o];
    }

    /** The current thread, its error reset, was SUSPENDed at its place in the wait list
        of o. */
    ghost predicate Blocks(thr0: Pool, lists0: Table, link0: Links, alarm0: map<Tid, nat>, pend0: map<Tid, Oid>,
                           o: Oid, fifo: bool, time: int)
      requires current in thr0
      reads this`current, this`thr, this`lists, this`link, this`alarm, this`pend
    {
      && thr == thr0[current := thr0[current].(stat := SUSPEND, error := EOK)]
      && link == link0[current := WaitList(o)] && pend == pend0[current := o]
      && alarm == (if time > 0 then alarm0[current := time] else alarm0)
      && (forall q :: q != o ==> Waiters(lists, q) == Waiters(lists0, q))
      && Queues(Waiters(lists0, o), Waiters(lists, o), thr0, current, fifo)
      && Requeued(lists0, lists, current, NOWHERE)
    }

    /** What every call that blocks does before it lets the scheduler run. */
    method Block(o: Oid, fifo: bool, time: int)
      requires Valid() && Free() && current != idle && MustWait(sems, mutexes, current, o) && time < HALF_TICKS
      modifies this`thr, this`lists, this`link, this`group, this`alarm, this`pend
      ensures Valid()
      ensures Blocks(old(thr), old(lists), old(link), old(alarm), old(pend), o, fifo, time)
    {
      hide Scheduled, Waiters, IsSlot, ObjectsFit, CallsFit, SuppliesFit, MustWait, Splice, Locks.Inherits, Requeued;
      SetsError(EOK);
      thr := thr[current := thr[current].(error := EOK)];
      label reset:
      ghost var k := Park(o, fifo, time);
      SlotAlike(Waiters(old(lists), o), old(thr), old@reset(thr), current, k);
    }

    /** What a call that blocks does when the current thread is in a wait list already, or
        CLOSEd: rt_thread_suspend fails, which nobody looks at, and the node is linked in
        once more. */
    method Tangle(o: Oid, fifo: bool, time: int)
      requires Valid() && Outside() && !CanWait() && (o in sems || o in mutexes)
      modifies this`thr, this`lists, this`link, this`alarm, this`pend
      ensures !Core()
      ensures thr == old(thr)[current := old(thr)[current].(error := EOK)] && link == old(link)[current := WaitList(o)]
      ensures pend == old(pend)[current := o] && alarm == if time > 0 then old(alarm)[current := time] else old(alarm)
      ensures Queues(Waiters(old(lists), o), Waiters(lists, o), old(thr), current, fifo)
      ensures forall q :: q != o ==> Waiters(lists, q) == Waiters(old(lists), q)
    {
      hide Scheduled, ObjectsFit, CallsFit, SuppliesFit, Waiters, Splice;
      HasWaitList(o);
      var k := Slot(o, current, fifo);
      PutWaiters(lists, o, k, current);
      WhereLinked(current);
      Errs(thr, lists, link, group, alarm, current, EOK);
      thr := thr[current := thr[current].(error := EOK)];
      Tangles(thr, lists, link, group, alarm, current, o, k, if time > 0 then alarm[current := time] else alarm);
      lists := Put(lists, WaitList(o), k, current);
      link := link[current := WaitList(o)];
      if time > 0 { alarm := alarm[current := time]; }
      pend := pend[current := o];
    }

    lemma HasWaitList(o: Oid)
      requires Objects() && (o in sems || o in mutexes)
      ensures WaitList(o) in lists
    {
    }

    // ----- ipc.c: semaphores -----

    /** rt_sem_take up to the scheduling request. It keeps the kernel valid exactly when the
        caller, if it has to wait, is in no wait list. */
    method SemTake(s: Oid, time: int) returns (r: Outcome)
      requires Valid() && s in sems && time < HALF_TICKS
      requires sems[s].value == 0 && time != 0 ==> Outside() && current != idle
      modifies this`thr, this`lists, this`link, this`group, this`alarm, this`sems, this`pend, this`supply
      ensures Valid() <==> old(sems)[s].value > 0 || time == 0 || old(CanWait())
      ensures old(sems)[s].value > 0 ==>
        r == Done(EOK) && sems == old(sems)[s := old(sems)[s].(value := old(sems)[s].value - 1)]
      ensures old(sems)[s].value > 0 ==> s in old(supply) && supply == old(supply)[s := old(supply)[s] - 1]
      ensures old(sems)[s].value == 0 ==> sems == old(sems) && supply == old(supply)
      ensures old(sems)[s].value == 0 && time == 0 ==> r == Done(ETIMEOUT)
      ensures old(sems)[s].value > 0 || time == 0 ==>
        thr == old(thr) && lists == old(lists) && link == old(link) && pend == old(pend) && alarm == old(alarm)
      ensures old(sems)[s].value == 0 && time != 0 ==> r == Blocked
      ensures old(sems)[s].value == 0 && time != 0 && old(CanWait()) ==>
                Blocks(old(thr), old(lists), old(link), old(alarm), old(pend), s, sems[s].fifo, time)
      ensures old(sems)[s].value == 0 && time != 0 ==>
        link == old(link)[current := WaitList(s)] && pend == old(pend)[current := s] &&
        Queues(Waiters(old(lists), s), Waiters(lists, s), old(thr), current, sems[s].fifo)
      ensures Valid() ==> forall m :: old(Inherits(m)) ==> Inherits(m)
    {
      hide Scheduled, ObjectsFit, CallsFit, SuppliesFit, Locks.Inherits, Waiters, IsSlot, Queues;
      if sems[s].value > 0 {
        NoWaiters(s);
        Recounted(thr.Keys, lists, sems, mutexes, pend, owed, supply, s, sems[s].value - 1);
        supply := supply[s := supply[s] - 1];
        sems := sems[s := sems[s].(value := sems[s].value - 1)];
        return Done(EOK);
      }
      if time == 0 { return Done(ETIMEOUT); }
      r := Blocked;
      NotMutex(s);
      if CanWait() {
        Block(s, sems[s].fifo, time);
        AllInheritSame(old(thr), thr, old(lists), lists, mutexes, base);
      } else {
        Tangle(s, sems[s].fifo, time);
      }
    }

    lemma NoWaiters(s: Oid)
      requires Objects() && s in sems
      ensures sems[s].value <= SEM_VALUE_MAX && (sems[s].value > 0 ==> Waiters(lists, s) == [])
    {
    }

    lemma NotMutex(s: Oid)
      requires Objects() && s in sems
      ensures s !in mutexes
    {
    }

    /** rt_sem_take after its rt_schedule returned. It reports success exactly when it was
        woken with a unit, except that a thread which is still in the wait list, because
        the scheduler was locked, and one that rt_thread_resume took out of it report
        success without. */
    method SemTakeReturn(s: Oid) returns (r: Error)
      requires Valid() && s in sems && current in pend && pend[current] == s
      modifies this`pend, this`owed, this`forced, this`supply
      ensures Valid()
      ensures r == thr[current].error && pend == old(pend) - {current} && owed == old(owed) - {current} &&
        forced == old(forced) - {current}
      ensures WaitsFor(link, current, s) || current in old(forced) ==> r == EOK && current !in old(owed)
      ensures !WaitsFor(link, current, s) && current !in old(forced) ==> (r == EOK <==> current in old(owed))
      ensures s in old(supply) && supply == old(supply)[s := old(supply)[s] - if current in old(owed) then 1 else 0]
      ensures forall m :: old(Inherits(m)) ==> Inherits(m)
    {
      hide Scheduled, ObjectsFit, SuppliesFit, Locks.Inherits, Waiters, CallsFit;
      r := thr[current].error;
      NotMutex(s);
      CallSettled(thr, link, alarm, mutexes, pend, owed, forced, current);
      Supplied(s);
      CallsReturn(thr, link, alarm, mutexes, pend, owed, forced, current);
      SuppliesSpent(sems, pend, owed, supply, current);
      supply := supply[s := supply[s] - if current in owed then 1 else 0];
      pend := pend - {current};
      owed := owed - {current};
      forced := forced - {current};
    }

    lemma Supplied(s: Oid)
      requires Objects() && s in sems
      ensures s in supply && supply[s := supply[s] - 0] == supply
    {
    }

    /** rt_ipc_list_resume: the waiter t is READY, at the end of the ready list of its
        priority. */
    ghost predicate Woken(thr0: Pool, lists0: Table, link0: Links, alarm0: map<Tid, nat>, t: Tid)
      requires t in thr0
      reads this`thr, this`lists, this`link, this`alarm
    {
      && thr == thr0[t := thr0[t].(stat := READY)] && lists == Moved(lists0, link0, t, thr0[t].prio)
      && link == link0[t := ReadyList(thr0[t].prio)] && alarm == alarm0 - {t}
    }

    /** rt_ipc_list_resume. */
    method ListResume(o: Oid, t: Tid)
      requires Valid() && Waiters(lists, o) != [] && t == Waiters(lists, o)[0]
      modifies this`thr, this`lists, this`link, this`group, this`alarm
      ensures Core() && ObjectsFit(thr.Keys, lists, sems, mutexes) && thr.Keys == old(thr).Keys
      ensures t in old(thr) && Woken(old(thr), old(lists), old(link), old(alarm), t)
      ensures thr == old(thr)[t := old(thr)[t].(stat := READY)] && alarm == old(alarm) - {t}
      ensures link == old(link)[t := ReadyList(old(thr)[t].prio)]
      ensures WaitsFor(old(link), t, o) && (t in pend ==> pend[t] == o) && Left(old(lists), lists, t)
      ensures Requeued(old(lists), lists, t, old(thr)[t].prio)
      ensures forall m :: old(Inherits(m)) ==> Inherits(m)
    {
      hide Scheduled, ObjectsFit, CallsFit, SuppliesFit, Moved, Left, Locks.Inherits, Requeued;
      HeadWaits(thr, lists, link, group, alarm, mutexes, pend, owed, forced, o);
      hide Waiters;
      Awaken(t);
      assert thr.Keys == old(thr).Keys;
      ObjectsLeft(thr.Keys, old(lists), lists, sems, mutexes, t);
      AllInheritLeft(old(thr), thr, old(lists), lists, mutexes, base, t);
    }

    /** The first waiter t of a semaphore is woken with a unit; if its call returned already,
        the unit is spent. */
    method HandUnit(s: Oid, t: Tid)
      requires Valid() && s in sems && Waiters(lists, s) != [] && t == Waiters(lists, s)[0] && s in supply
      modifies this`thr, this`lists, this`link, this`group, this`alarm, this`owed, this`supply
      ensures Valid()
      ensures t in old(thr) && Woken(old(thr), old(lists), old(link), old(alarm), t) && Left(old(lists), lists, t)
      ensures t in pend ==> owed == old(owed) + {t} && supply == old(supply)[s := old(supply)[s] + 1]
      ensures t !in pend ==> owed == old(owed) && supply == old(supply)
      ensures forall m :: old(Inherits(m)) ==> Inherits(m)
    {
      hide Scheduled, ObjectsFit, CallsFit, SuppliesFit, Locks.Inherits, Left, Waiters, Woken, OwedBy;
      NotMutex(s);
      ListResume(s, t);
      CallsGrantUnit(old(thr), old(link), old(alarm), sems, mutexes, pend, owed, forced, t, thr[t], s, link);
      if t in pend {
        SuppliesGrant(sems, pend, owed, supply, t, s);
        owed := owed + {t};
        supply := supply[s := supply[s] + 1];
      }
    }

    /** rt_sem_release. */
    method SemRelease(s: Oid) returns (e: Error, resched: bool)
      requires Valid() && s in sems
      modifies this`thr, this`lists, this`link, this`group, this`alarm, this`sems, this`owed, this`supply
      ensures Valid()
      ensures resched <==> Waiters(old(lists), s) != []
      ensures resched ==> var t := Waiters(old(lists), s)[0];
                && e == EOK && sems == old(sems) && t in old(thr)
                && Woken(old(thr), old(lists), old(link), old(alarm), t)
                && Left(old(lists), lists, t) && owed == old(owed) + if t in pend then {t} else {}
      ensures !resched ==>
        thr == old(thr) && lists == old(lists) && link == old(link) && alarm == old(alarm) && owed == old(owed)
      ensures !resched && old(sems)[s].value < SEM_VALUE_MAX ==>
        e == EOK && sems == old(sems)[s := old(sems)[s].(value := old(sems)[s].value + 1)]
      ensures !resched && old(sems)[s].value == SEM_VALUE_MAX ==> e == EFULL && sems == old(sems)
      ensures s in old(supply) && supply == old(supply)[s := old(supply)[s] + if e == EFULL ||
        (resched && Waiters(old(lists), s)[0] !in pend) then 0 else 1]
      ensures forall m :: old(Inherits(m)) ==> Inherits(m)
    {
      hide Scheduled, ObjectsFit, CallsFit, SuppliesFit, Locks.Inherits, Waiters, Woken, Left;
      resched := false;
      NoWaiters(s);
      Supplied(s);
      if Waiters(lists, s) != [] {
        HandUnit(s, Waiters(lists, s)[0]);
        resched := true;
        e := EOK;
      } else if sems[s].value < SEM_VALUE_MAX {
        Recounted(thr.Keys, lists, sems, mutexes, pend, owed, supply, s, sems[s].value + 1);
        supply := supply[s := supply[s] + 1];
        sems := sems[s := sems[s].(value := sems[s].value + 1)];
        e := EOK;
      } else {
        e := EFULL;
      }
    }

    /** rt_ipc_list_resume_all: every waiter of o is woken with an error. */
    method ResumeAll(o: Oid)
      requires Valid() && (o in sems || o in mutexes)
      modifies this`thr, this`lists, this`link, this`group, this`alarm
      ensures Valid()
      ensures Waiters(lists, o) == []
      ensures Aborted(old(thr), thr, Waiters(old(lists), o), [])
      ensures forall q :: q != o ==> Waiters(lists, q) == Waiters(old(lists), q)
      ensures AllWoken(old(thr), old(lists), lists, old(alarm), alarm, Waiters(old(lists), o))
      ensures forall m :: old(Inherits(m)) ==> Inherits(m)
    {
      hide Scheduled, ObjectsFit, CallsFit, SuppliesFit, Locks.Inherits, Waiters, Aborted, AllWoken, Requeued;
      AbortsNone(thr, Waiters(lists, o));
      WokenNone(thr, lists, alarm);
      ghost var woken: seq<Tid> := [];
      while Waiters(lists, o) != []
        invariant Valid()
        invariant Aborted(old(thr), thr, Waiters(old(lists), o), Waiters(lists, o))
        invariant AllWoken(old(thr), old(lists), lists, old(alarm), alarm, woken)
        invariant Waiters(old(lists), o) == woken + Waiters(lists, o)
        invariant forall q :: q != o ==> Waiters(lists, q) == Waiters(old(lists), q)
        invariant forall m :: old(Inherits(m)) ==> Inherits(m)
        decreases |Waiters(lists, o)|
      {
        label before:
        ghost var t := AbortFirst(o);
        StillWaits(old(thr), old@before(thr), Waiters(old(lists), o), old@before(Waiters(lists, o)), t);
        AbortsOne(old(thr), old@before(thr), thr, Waiters(old(lists), o), old@before(Waiters(lists, o)),
          Waiters(lists, o), t);
        WokenOne(old(thr), old(lists), old@before(lists), lists, old(alarm), old@before(alarm), alarm, woken, t);
        woken := woken + [t];
      }
      assert woken == Waiters(old(lists), o);
    }

    /** The first waiter is woken with an error. */
    method AbortFirst(o: Oid) returns (ghost t: Tid)
      requires Valid() && (o in sems || o in mutexes) && Waiters(lists, o) != []
      modifies this`thr, this`lists, this`link, this`group, this`alarm
      ensures Valid() && t == old(Waiters(lists, o))[0] && t in old(thr)
      ensures thr == old(thr)[t := old(thr)[t].(stat := READY, error := ERROR)] && alarm == old(alarm) - {t}
      ensures Waiters(lists, o) == old(Waiters(lists, o))[1..] && Distinct(old(Waiters(lists, o)))
      ensures forall u :: u in Waiters(lists, o) <==> u in old(Waiters(lists, o)) && u != t
      ensures forall q :: q != o ==> Waiters(lists, q) == Waiters(old(lists), q)
      ensures Requeued(old(lists), old(lists), t, NOWHERE) && Requeued(old(lists), lists, t, old(thr)[t].prio)
      ensures forall m :: old(Inherits(m)) ==> Inherits(m)
    {
      hide Scheduled, ObjectsFit, CallsFit, SuppliesFit, Locks.Inherits, Waiters, Moved, Left, Linked, Requeued;
      var first := Waiters(lists, o)[0];
      t := first;
      HeadWaits(thr, lists, link, group, alarm, mutexes, pend, owed, forced, o);
      LinkedCore();
      WaiterUnlisted(o);
      Abort(first, ERROR);
      OneLeft(old(lists), old(link), lists, t, o);
      FirstLeft(old(Waiters(lists, o)));
    }

    lemma FirstLeft(ws: seq<Tid>)
      requires ws != [] && Distinct(ws)
      ensures Without(ws, ws[0]) == ws[1..]
    {
      WithoutAt(ws, 0);
    }

    lemma WaiterUnlisted(o: Oid)
      requires Valid() && Waiters(lists, o) != []
      ensures Distinct(Waiters(lists, o))
      ensures var t := Waiters(lists, o)[0]; t in thr && Requeued(lists, lists, t, NOWHERE)
    {
      var t := Waiters(lists, o)[0];
      assert t in lists[WaitList(o)];
      NotReady(t);
    }

    /** rt_sem_control with RT_IPC_CMD_RESET. */
    method SemReset(s: Oid, value: nat) returns (resched: bool)
      requires Valid() && s in sems
      modifies this`thr, this`lists, this`link, this`group, this`alarm, this`sems, this`supply
      ensures Valid() && resched
      ensures sems == old(sems)[s := old(sems)[s].(value := value % (SEM_VALUE_MAX + 1))]
      ensures Waiters(lists, s) == [] && Aborted(old(thr), thr, Waiters(old(lists), s), [])
      ensures AllWoken(old(thr), old(lists), lists, old(alarm), alarm, Waiters(old(lists), s))
      ensures forall q :: q != s ==> Waiters(lists, q) == Waiters(old(lists), q)
      ensures s in old(supply) && supply == old(supply)[s := old(supply)[s] + sems[s].value - old(sems)[s].value]
      ensures forall m :: old(Inherits(m)) ==> Inherits(m)
    {
      hide Scheduled, ObjectsFit, CallsFit, SuppliesFit, Locks.Inherits, Waiters, Aborted, AllWoken;
      Supplied(s);
      ResumeAll(s);
      var v := value % (SEM_VALUE_MAX + 1);
      Recounted(thr.Keys, lists, sems, mutexes, pend, owed, supply, s, v);
      supply := supply[s := supply[s] + v - sems[s].value];
      sems := sems[s := sems[s].(value := v)];
      resched := true;
    }

    // ----- ipc.c: mutexes -----

    /** rt_mutex_take of a mutex that nobody owns. */
    method TakeFree(m: Oid)
      requires Valid() && Outside() && m in mutexes && mutexes[m].value > 0
      modifies this`mutexes
      ensures Valid()
      ensures mutexes == old(mutexes)[m := Mutex(0, By(current), thr[current].prio, 1, old(mutexes)[m].fifo)]
      ensures Unqueued() ==>
        forall n :: old(Inherits(n)) && Orderly(thr, old(mutexes), base, current, m, n) ==> Inherits(n)
    {
      hide Scheduled, ObjectsFit, CallsFit, SuppliesFit, Locks.Inherits, Waiters, Orderly;
      MutexState(m);
      var x := Mutex(mutexes[m].value - 1, By(current), thr[current].prio, mutexes[m].hold + 1, mutexes[m].fifo);
      MaskOf(thr, lists, link, group, alarm, current);
      StepOwns(thr, lists, link, alarm, sems, mutexes, pend, owed, forced, m, x);
      if Unqueued() { WaitsNowhere(current); }
      forall n | Unqueued() && old(Inherits(n)) && Orderly(thr, mutexes, base, current, m, n)
        ensures Locks.Inherits(thr, lists, mutexes[m := x], base, n)
      {
        InheritsTaken(thr, lists, mutexes, base, current, m, x, n);
      }
      mutexes := mutexes[m := x];
    }

    lemma MutexState(m: Oid)
      requires Objects() && m in mutexes
      ensures m !in sems && WaitList(m) in lists && MutexFits(mutexes[m], Waiters(lists, m), thr.Keys)
    {
    }

    /** A thread that is linked in no wait list waits for nothing. */
    lemma WaitsNowhere(t: Tid)
      requires Core() && (t in link ==> link[t].ReadyList?)
      ensures forall o :: t !in Waiters(lists, o)
    {
    }

    /** rt_mutex_take raises the owner to the priority of the thread that will wait. */
    method Raise(t: Tid, prio: nat)
      requires Valid() && t in thr && prio < PRIORITIES && t != current
      modifies this`thr, this`lists, this`link, this`group
      ensures Valid()
      ensures Locks.Raised(old(thr), thr, t, prio) && SameWaiters(old(lists), lists)
      ensures current in thr && thr[current] == old(thr)[current]
      ensures OthersTuned(old(thr), thr, current)
      ensures (current in link <==> current in old(link)) && (current in link ==> link[current] == old(link)[current])
      ensures !(prio < old(thr)[t].prio && old(thr)[t].stat == READY) ==> lists == old(lists) && link == old(link)
      ensures prio < old(thr)[t].prio && old(thr)[t].stat == READY ==> Requeued(old(lists), lists, t, prio)
    {
      hide Scheduled, ObjectsFit, CallsFit, SuppliesFit, SameWaiters, Mask, Moved, Requeued;
      StaySame(lists);
      WhereLinked(t);
      if prio < thr[t].prio {
        ReadyRoom(prio);
        MovedRequeued(lists, link, t, prio);
        ChangePriority(t, prio);
        assert thr.Keys == old(thr).Keys;
      }
    }

    /** The current thread waits for m, and its owner is at least as urgent as it. */
    ghost predicate RaisedAndBlocked(thr0: Pool, lists0: Table, m: Oid, owner: Tid, fifo: bool, time: int)
      requires current in thr0
      reads this`current, this`thr, this`lists, this`link, this`alarm, this`pend
    {
      && owner in thr0 && current in thr && owner in thr
      && thr[current] == thr0[current].(stat := SUSPEND, error := EOK)
      && OthersTuned(thr0, thr, current)
      && Locks.Raised(thr0, thr, owner, thr0[current].prio)
      && current in link && link[current] == WaitList(m) && current in pend && pend[current] == m
      && (time > 0 ==> current in alarm && alarm[current] == time)
      && (forall q :: q != m ==> Waiters(lists, q) == Waiters(lists0, q))
      && Queues(Waiters(lists0, m), Waiters(lists, m), thr0, current, fifo)
      && RaisedLists(thr0, lists0, owner)
    }

    /** A READY owner less urgent than the running thread goes to the end of its ready list,
        and the running thread leaves it; the others stay where they are. */
    ghost predicate RaisedLists(thr0: Pool, lists0: Table, owner: Tid)
      requires current in thr0 && owner in thr0
      reads this`current, this`lists
    {
      if thr0[current].prio < thr0[owner].prio && thr0[owner].stat == READY then
        exists l :: Requeued(lists0, l, owner, thr0[current].prio) && Requeued(l, lists, current, NOWHERE)
      else Requeued(lists0, lists, current, NOWHERE)
    }

    /** rt_mutex_take of a mutex that another thread owns. */
    method RaiseAndBlock(m: Oid, time: int)
      requires Valid() && Free() && m in mutexes && time < HALF_TICKS && current != idle
      requires mutexes[m].owner.By? && mutexes[m].owner != By(current)
      modifies this`thr, this`lists, this`link, this`group, this`alarm, this`pend
      ensures Valid()
      ensures RaisedAndBlocked(old(thr), old(lists), m, mutexes[m].owner.tid, mutexes[m].fifo, time) &&
        pend == old(pend)[current := m]
      ensures alarm == if time > 0 then old(alarm)[current := time] else old(alarm)
      ensures forall n :: old(Inherits(n)) && Orderly(old(thr), mutexes, base, current, m, n) ==> Inherits(n)
    {
      hide Scheduled, ObjectsFit, CallsFit, SuppliesFit, Locks.Inherits, Waiters, Orderly, SameWaiters, Queues,
        Locks.Raised, Mask, Blocks, OthersTuned, Requeued, RaisedLists, RaisedAndBlocked;
      var owner := mutexes[m].owner.tid;
      MutexState(m);
      WhereLinked(current);
      WaitsNowhere(current);
      MaskOf(thr, lists, link, group, alarm, current);
      WaitersExist(m);
      Raise(owner, thr[current].prio);
      label raised:
      Block(m, mutexes[m].fifo, time);
      WaitsBehind(old(thr), old(lists), old@raised(thr), old@raised(lists), old@raised(link), old@raised(alarm),
        old@raised(pend), m, time);
    }

    /** The owner was raised, and then the running thread blocked. */
    lemma WaitsBehind(thr0: Pool, lists0: Table, thr1: Pool, lists1: Table, link1: Links, alarm1: map<Tid, nat>,
                      pend1: map<Tid, Oid>, m: Oid, time: int)
      requires m in mutexes && mutexes[m].owner.By? && mutexes[m].owner != By(current)
      requires current in thr0 && current in thr1 && thr1[current] == thr0[current] && OthersTuned(thr0, thr1, current)
      requires var owner := mutexes[m].owner.tid;
        && Locks.Raised(thr0, thr1, owner, thr0[current].prio) && owner !in Waiters(lists0, m)
        && if owner in thr0 && thr0[current].prio < thr0[owner].prio && thr0[owner].stat == READY
           then Requeued(lists0, lists1, owner, thr0[current].prio) else lists1 == lists0
      requires SameWaiters(lists0, lists1) && Blocks(thr1, lists1, link1, alarm1, pend1, m, mutexes[m].fifo, time)
      requires forall k :: k in mutexes ==> current !in Waiters(lists0, k)
      requires forall w :: w in Waiters(lists0, m) ==> w in thr0
      ensures mutexes[m].owner.tid in thr0
      ensures RaisedAndBlocked(thr0, lists0, m, mutexes[m].owner.tid, mutexes[m].fifo, time) &&
        pend == pend1[current := m]
      ensures alarm == if time > 0 then alarm1[current := time] else alarm1
      ensures forall n ::
        Locks.Inherits(thr0, lists0, mutexes, base, n) && Orderly(thr0, mutexes, base, current, m, n) ==> Inherits(n)
    {
      hide Locks.Inherits, Waiters, Orderly, SameWaiters, Queues, Locks.Raised, Blocks, OthersTuned, Requeued,
        RaisedLists;
      var owner := mutexes[m].owner.tid;
      SameRings(lists0, lists1);
      BlockedFacts(thr1, lists1, link1, alarm1, pend1, m, mutexes[m].fifo, time);
      RaisedFrame(thr0, thr1, thr, owner, thr0[current].prio);
      TunedThen(thr0, thr1, thr, current);
      ThenLeaves(thr0, lists0, lists1, owner);
      AllInheritJoined(thr0, thr1, thr, lists0, lists, mutexes, base, current, m);
    }

    lemma ThenLeaves(thr0: Pool, lists0: Table, l: Table, owner: Tid)
      requires current in thr0 && owner in thr0 && Requeued(l, lists, current, NOWHERE)
      requires var moves := thr0[current].prio < thr0[owner].prio && thr0[owner].stat == READY;
        if moves then Requeued(lists0, l, owner, thr0[current].prio) else l == lists0
      ensures RaisedLists(thr0, lists0, owner)
    {
      hide Requeued;
    }

    lemma BlockedFacts(thr0: Pool, lists0: Table, link0: Links, alarm0: map<Tid, nat>, pend0: map<Tid, Oid>, o: Oid,
                       fifo: bool, time: int)
      requires current in thr0 && Blocks(thr0, lists0, link0, alarm0, pend0, o, fifo, time)
      ensures current in thr && thr[current] == thr0[current].(stat := SUSPEND, error := EOK)
      ensures forall u :: u in thr0 ==> u in thr && thr[u].prio == thr0[u].prio
      ensures thr == thr0[current := thr[current]]
      ensures current in link && link[current] == WaitList(o) && pend == pend0[current := o]
      ensures time > 0 ==> current in alarm && alarm[current] == time
      ensures alarm == (if time > 0 then alarm0[current := time] else alarm0)
      ensures Requeued(lists0, lists, current, NOWHERE)
      ensures forall q :: q != o ==> Waiters(lists, q) == Waiters(lists0, q)
      ensures Queues(Waiters(lists0, o), Waiters(lists, o), thr0, current, fifo)
    {
      hide Queues, Waiters;
    }

    /** rt_mutex_take of a mutex that the thread owns. */
    method Reenter(m: Oid) returns (e: Error)
      requires Valid() && m in mutexes && mutexes[m].owner == By(current) && current !in pend
      modifies this`mutexes
      ensures Valid()
      ensures var x := old(mutexes)[m];
              if x.hold < MUTEX_HOLD_MAX then e == EOK && mutexes == old(mutexes)[m := x.(hold := x.hold + 1)]
              else e == EFULL && mutexes == old(mutexes)
      ensures forall n :: old(Inherits(n)) ==> Inherits(n)
    {
      hide Scheduled, ObjectsFit, CallsFit, SuppliesFit, Locks.Inherits, Waiters;
      MutexState(m);
      if mutexes[m].hold < MUTEX_HOLD_MAX {
        StepOwns(thr, lists, link, alarm, sems, mutexes, pend, owed, forced, m,
          mutexes[m].(hold := mutexes[m].hold + 1));
        AllInheritHeld(thr, lists, mutexes, base, m, mutexes[m].hold + 1);
        mutexes := mutexes[m := mutexes[m].(hold := mutexes[m].hold + 1)];
        e := EOK;
      } else {
        e := EFULL;
      }
    }

    /** rt_mutex_take up to the scheduling request. It keeps the kernel valid exactly when
        the caller, if it has to wait, is in no wait list. */
    method MutexTake(m: Oid, time: int) returns (r: Outcome)
      requires Valid() && Outside() && m in mutexes && time < HALF_TICKS
      requires MustWait(sems, mutexes, current, m) && time != 0 ==> current != idle
      modifies this`thr, this`lists, this`link, this`group, this`alarm, this`mutexes, this`pend
      ensures Valid() <==> !old(MustWait(sems, mutexes, current, m)) || time == 0 || old(CanWait())
      ensures var x := old(mutexes)[m];
              if x.owner == By(current) && x.hold < MUTEX_HOLD_MAX then
                r == Done(EOK) && mutexes == old(mutexes)[m := x.(hold := x.hold + 1)]
              else if x.owner == By(current) then
                r == Done(EFULL) && mutexes == old(mutexes)
              else if x.owner == Nobody then
                r == Done(EOK) && mutexes == old(mutexes)[m := Mutex(0, By(current), old(thr)[current].prio, 1, x.fifo)]
              else
                mutexes == old(mutexes) && r == if time == 0 then Done(ETIMEOUT) else Blocked
      ensures r.Done? ==> lists == old(lists) && link == old(link) && pend == old(pend) && alarm == old(alarm)
      ensures r.Done? ==>
        thr == old(thr)[current := old(thr)[current].(error := if r == Done(ETIMEOUT) then ETIMEOUT else EOK)]
      ensures Valid() ==> OnlyOwnerTuned(old(thr), thr, old(mutexes)[m].owner)
      ensures r.Blocked? && Valid() ==>
        && old(mutexes)[m].owner.By? && RaisedAndBlocked(old(thr), old(lists), m, old(mutexes)[m].owner.tid,
          mutexes[m].fifo, time)
        && pend == old(pend)[current := m] && alarm == if time > 0 then old(alarm)[current := time] else old(alarm)
      ensures r.Blocked? && !Valid() ==>
        && old(mutexes)[m].owner.By? && Locks.Raised(old(thr), thr, mutexes[m].owner.tid, old(thr)[current].prio)
        && current in link && link[current] == WaitList(m) && pend == old(pend)[current := m]
      ensures Valid() && old(Unqueued()) ==>
        forall n :: old(Inherits(n)) && Orderly(old(thr), old(mutexes), base, current, m, n) ==> Inherits(n)
    {
      hide Scheduled, ObjectsFit, CallsFit, SuppliesFit, Locks.Inherits, Waiters, Orderly, Locks.Raised, SameWaiters,
        OnlyOwnerTuned, Queues;
      SetsError(EOK);
      SetsError(ETIMEOUT);
      MutexState(m);
      ErrsOnly(thr, current, EOK, mutexes[m].owner);
      ErrsOnly(thr, current, ETIMEOUT, mutexes[m].owner);
      if mutexes[m].owner == By(current) {
        thr := thr[current := thr[current].(error := EOK)];
        var e := Reenter(m);
        r := Done(e);
      } else if mutexes[m].value > 0 {
        thr := thr[current := thr[current].(error := EOK)];
        OrderlyAlike(old(thr), thr, mutexes, base, current, m);
        TakeFree(m);
        r := Done(EOK);
      } else if time == 0 {
        thr := thr[current := thr[current].(error := ETIMEOUT)];
        r := Done(ETIMEOUT);
      } else if CanWait() {
        RaiseAndBlock(m, time);
        RaisedOnly(old(thr), thr, mutexes[m].owner.tid, old(thr)[current].prio);
        r := Blocked;
      } else {
        RaiseAndTangle(m, time);
        r := Blocked;
      }
    }

    /** rt_mutex_take of a mutex that another thread owns, by a thread that cannot wait. */
    method RaiseAndTangle(m: Oid, time: int)
      requires Valid() && Outside() && !CanWait() && m in mutexes
      requires mutexes[m].owner.By? && mutexes[m].owner != By(current)
      modifies this`thr, this`lists, this`link, this`group, this`alarm, this`pend
      ensures !Valid()
      ensures Locks.Raised(old(thr), thr, mutexes[m].owner.tid, old(thr)[current].prio)
      ensures current in link && link[current] == WaitList(m) && pend == old(pend)[current := m]
      ensures Queues(Waiters(old(lists), m), Waiters(lists, m), old(thr), current, mutexes[m].fifo)
    {
      hide Scheduled, ObjectsFit, CallsFit, SuppliesFit, SameWaiters, Mask, Queues, Waiters;
      var owner := mutexes[m].owner.tid;
      MutexState(m);
      WhereLinked(current);
      MaskOf(thr, lists, link, group, alarm, current);
      WaitersExist(m);
      Raise(owner, thr[current].prio);
      SameRings(old(lists), lists);
      label raised:
      Tangle(m, mutexes[m].fifo, time);
      QueuesElsewhere(old(Waiters(lists, m)), Waiters(lists, m), old(thr), old@raised(thr), current, mutexes[m].fifo);
    }

    /** rt_mutex_take after its rt_schedule returned. It reports success exactly when the
        thread owns the mutex, except that a thread which is still in the wait list,
        because the scheduler was locked, and one that rt_thread_resume took out of it
        report success without. */
    method MutexTakeReturn(m: Oid) returns (r: Error)
      requires Valid() && m in mutexes && current in pend && pend[current] == m
      modifies this`pend, this`forced
      ensures Valid()
      ensures r == thr[current].error && pend == old(pend) - {current} && forced == old(forced) - {current}
      ensures WaitsFor(link, current, m) || current in old(forced) ==> r == EOK && mutexes[m].owner != By(current)
      ensures !WaitsFor(link, current, m) && current !in old(forced) ==> (r == EOK <==> mutexes[m].owner == By(current))
      ensures forall n :: old(Inherits(n)) ==> Inherits(n)
    {
      hide Scheduled, ObjectsFit, SuppliesFit, Locks.Inherits, Waiters, CallsFit, OwedBy;
      r := thr[current].error;
      CallSettled(thr, link, alarm, mutexes, pend, owed, forced, current);
      CallsReturn(thr, link, alarm, mutexes, pend, owed, forced, current);
      SuppliesSpent(sems, pend, owed, supply, current);
      assert owed - {current} == owed;
      pend := pend - {current};
      forced := forced - {current};
    }

    /** A running READY thread whose priority becomes another one, p, goes to the end of that
        ready list; otherwise nobody moves. */
    ghost predicate Lowered(thr0: Pool, lists0: Table, link0: Links, lists': Table, link': Links, p: nat)
      reads this`current
    {
      current in thr0 &&
        if thr0[current].prio == p || thr0[current].stat != READY then lists' == lists0 && link' == link0
        else Requeued(lists0, lists', current, p) && link' == link0[current := ReadyList(p)]
    }

    /** The running thread is back at the priority p. */
    method Restore(p: nat)
      requires Valid() && p < PRIORITIES
      modifies this`thr, this`lists, this`link, this`group
      ensures Valid() && SameWaiters(old(lists), lists)
      ensures current in thr && thr[current] == old(thr)[current].(prio := p, mask := thr[current].mask)
      ensures thr == old(thr)[current := thr[current]] && pend == old(pend)
      ensures Lowered(old(thr), old(lists), old(link), lists, link, p)
    {
      hide Scheduled, ObjectsFit, CallsFit, SuppliesFit, SameWaiters, Mask, Moved, Requeued;
      StaySame(lists);
      if p != thr[current].prio {
        ReadyRoom(p);
        MovedRequeued(lists, link, current, p);
        ChangePriority(current, p);
        assert thr.Keys == old(thr).Keys;
      }
    }

    /** w left its wait for the end of its ready list, and its timer is stopped. */
    ghost predicate HandedOver(thr0: Pool, lists0: Table, link0: Links, alarm0: map<Tid, nat>, w: Tid)
      reads this`lists, this`link, this`alarm
    {
      && w in thr0 && Requeued(lists0, lists, w, thr0[w].prio)
      && link == link0[w := ReadyList(thr0[w].prio)] && alarm == alarm0 - {w}
    }

    /** What a last release does to ready lists, links and timers: the running thread is lowered,
        then the first waiter, if any, becomes READY. */
    ghost predicate Released(thr0: Pool, lists0: Table, link0: Links, alarm0: map<Tid, nat>, m: Oid, p: nat)
      reads this`current, this`lists, this`link, this`alarm
    {
      var ws := Waiters(lists0, m);
      && (ws == [] ==> Lowered(thr0, lists0, link0, lists, link, p) && alarm == alarm0)
      && (ws != [] ==>
          exists l, k :: Lowered(thr0, lists0, link0, l, k, p) && HandedOver(thr0, l, k, alarm0, ws[0]))
    }

    /** The first waiter w becomes the owner of m and runs again. */
    method HandMutex(m: Oid, w: Tid)
      requires Valid() && Outside() && m in mutexes && mutexes[m].owner == By(current)
      requires Waiters(lists, m) != [] && w == Waiters(lists, m)[0]
      modifies this`thr, this`lists, this`link, this`group, this`alarm, this`mutexes
      ensures Valid()
      ensures w in old(thr) && w != current && thr == old(thr)[w := old(thr)[w].(stat := READY)] &&
        Left(old(lists), lists, w)
      ensures mutexes == old(mutexes)[m := old(mutexes)[m].(owner := By(w), original := old(thr)[w].prio, hold := 1)]
      ensures HandedOver(old(thr), old(lists), old(link), old(alarm), w)
    {
      hide Scheduled, ObjectsFit, CallsFit, SuppliesFit, Left, Waiters, OwedBy, Requeued;
      MutexState(m);
      HeadWaits(thr, lists, link, group, alarm, mutexes, pend, owed, forced, m);
      MaskOf(thr, lists, link, group, alarm, w);
      ListResume(m, w);
      LeftOut(old(lists), lists, w, m);
      StepHandsOver(old(thr), old(lists), old(link), old(alarm), sems, mutexes, pend, owed, forced, w, thr[w], m,
                    mutexes[m].(owner := By(w), original := old(thr)[w].prio, hold := 1), lists, link);
      mutexes := mutexes[m := mutexes[m].(owner := By(w), original := thr[w].prio, hold := 1)];
    }

    /** Nobody waits for m: it is free. */
    method FreeMutex(m: Oid)
      requires Valid() && Outside() && m in mutexes && mutexes[m].owner == By(current) && Waiters(lists, m) == []
      modifies this`mutexes
      ensures Valid()
      ensures mutexes == old(mutexes)[m := Mutex(1, Nobody, NO_PRIORITY, 0, old(mutexes)[m].fifo)]
    {
      hide Scheduled, ObjectsFit, CallsFit, SuppliesFit, Waiters, OwedBy;
      MutexState(m);
      var x := Mutex(mutexes[m].value + 1, Nobody, NO_PRIORITY, 0, mutexes[m].fifo);
      StepOwns(thr, lists, link, alarm, sems, mutexes, pend, owed, forced, m, x);
      mutexes := mutexes[m := x];
    }

    /** After the last release t has priority p, and the first waiter of m, if any, is
        READY; nothing else happened to threads and wait lists. */
    ghost predicate Settled(thr0: Pool, lists0: Table, m: Oid, t: Tid, p: nat)
      reads this`thr, this`lists
    {
      var ws := Waiters(lists0, m);
      && t in thr0 && t in thr && thr[t] == thr0[t].(prio := p, mask := thr[t].mask)
      && (forall u :: u in thr0 && u != t && u !in ws[..if ws == [] then 0 else 1] ==> u in thr && thr[u] == thr0[u])
      && (ws != [] ==> ws[0] in thr0 && ws[0] in thr && thr[ws[0]] == thr0[ws[0]].(stat := READY))
      && (ws != [] ==> Left(lists0, lists, ws[0]))
      && (ws == [] ==> SameWaiters(lists0, lists))
    }

    /** rt_mutex_release when the hold count reaches zero and threads wait. */
    method ReleaseTo(m: Oid, w: Tid)
      requires Valid() && Outside() && m in mutexes && mutexes[m].owner == By(current)
      requires Waiters(lists, m) != [] && w == Waiters(lists, m)[0]
      modifies this`thr, this`lists, this`link, this`group, this`alarm, this`mutexes
      ensures Valid()
      ensures w in old(thr) && mutexes == old(mutexes)[m := old(mutexes)[m].(owner := By(w),
        original := old(thr)[w].prio, hold := 1)]
      ensures Settled(old(thr), old(lists), m, current, old(mutexes)[m].original)
      ensures Released(old(thr), old(lists), old(link), old(alarm), m, old(mutexes)[m].original)
      ensures forall n :: old(Inherits(n)) ==> Inherits(n)
    {
      hide Scheduled, ObjectsFit, CallsFit, SuppliesFit, Locks.Inherits, Waiters, Left, SameWaiters, WaitsFor,
        MutexFits, Lowered, Requeued, Released, HandedOver;
      MutexState(m);
      HeadWaits(thr, lists, link, group, alarm, mutexes, pend, owed, forced, m);
      LinkedCore();
      ElsewhereNot(lists, link, w, m);
      Restore(mutexes[m].original);
      SameRings(old(lists), lists);
      label restored:
      HandMutex(m, w);
      LeftLater(old(lists), old@restored(lists), lists, w);
      LoweredThenHanded(old(thr), old(lists), old(link), old(alarm), old@restored(thr), old@restored(lists),
        old@restored(link), m, old(mutexes)[m].original);
      AllInheritHanded(old(thr), thr, old(lists), lists, old(mutexes), base, m, w, mutexes[m]);
    }

    lemma LoweredThenHanded(thr0: Pool, lists0: Table, link0: Links, alarm0: map<Tid, nat>, thr1: Pool, lists1: Table,
                            link1: Links, m: Oid, p: nat)
      requires Waiters(lists0, m) != [] && Lowered(thr0, lists0, link0, lists1, link1, p)
      requires var w := Waiters(lists0, m)[0];
        w in thr0 && w in thr1 && thr1[w] == thr0[w] && HandedOver(thr1, lists1, link1, alarm0, w)
      ensures Released(thr0, lists0, link0, alarm0, m, p)
    {
      hide Requeued;
      assert HandedOver(thr0, lists1, link1, alarm0, Waiters(lists0, m)[0]);
    }

    /** rt_mutex_release when the hold count reaches zero and no thread waits. */
    method ReleaseFree(m: Oid)
      requires Valid() && Outside() && m in mutexes && mutexes[m].owner == By(current) && Waiters(lists, m) == []
      modifies this`thr, this`lists, this`link, this`group, this`mutexes
      ensures Valid()
      ensures mutexes == old(mutexes)[m := Mutex(1, Nobody, NO_PRIORITY, 0, old(mutexes)[m].fifo)]
      ensures Settled(old(thr), old(lists), m, current, old(mutexes)[m].original)
      ensures Released(old(thr), old(lists), old(link), old(alarm), m, old(mutexes)[m].original)
      ensures forall n :: old(Inherits(n)) ==> Inherits(n)
    {
      hide Scheduled, ObjectsFit, CallsFit, SuppliesFit, Locks.Inherits, Waiters, Left, SameWaiters, Lowered;
      MutexState(m);
      Restore(mutexes[m].original);
      SameRings(old(lists), lists);
      FreeMutex(m);
      AllInheritFreed(old(thr), thr, old(lists), lists, old(mutexes), base, m, mutexes[m]);
    }

    /** rt_mutex_release. After the last release the thread has the priority at which
        it took the mutex; for a mutex that passes priority on, that is its own. */
    method MutexRelease(m: Oid) returns (e: Error, resched: bool)
      requires Valid() && Outside() && m in mutexes
      modifies this`thr, this`lists, this`link, this`group, this`alarm, this`mutexes
      ensures Valid()
      ensures var x := old(mutexes)[m];
              if x.owner != By(current) then
                e == ERROR && !resched && mutexes == old(mutexes) &&
                  thr == old(thr)[current := old(thr)[current].(error := ERROR)]
              else if x.hold > 1 then
                e == EOK && !resched && mutexes == old(mutexes)[m := x.(hold := x.hold - 1)] && thr == old(thr)
              else
                e == EOK && (resched <==> Waiters(old(lists), m) != [])
      ensures e == ERROR || old(mutexes)[m].hold > 1 ==> lists == old(lists) && link == old(link) && alarm == old(alarm)
      ensures e == EOK && old(mutexes)[m].hold == 1 && resched ==>
                var w := Waiters(old(lists), m)[0];
                w in old(thr) && mutexes == old(mutexes)[m := old(mutexes)[m].(owner := By(w),
                  original := old(thr)[w].prio, hold := 1)]
      ensures e == EOK && old(mutexes)[m].hold == 1 && !resched ==>
        mutexes == old(mutexes)[m := Mutex(1, Nobody, NO_PRIORITY, 0, old(mutexes)[m].fifo)]
      ensures e == EOK && old(mutexes)[m].hold == 1 ==>
        Settled(old(thr), old(lists), m, current, old(mutexes)[m].original) &&
        Released(old(thr), old(lists), old(link), old(alarm), m, old(mutexes)[m].original)
      ensures OnlyOwnerTuned(old(thr), thr, By(current))
      ensures e == EOK && old(mutexes)[m].hold == 1 && old(Inherits(m)) ==>
        current in base && current in thr && thr[current].prio == base[current]
      ensures forall n :: old(Inherits(n)) ==> Inherits(n)
    {
      hide Scheduled, ObjectsFit, CallsFit, SuppliesFit, Locks.Inherits, Waiters, Left, SameWaiters, Settled,
        OnlyOwnerTuned, Released;
      resched := false;
      MutexState(m);
      OwnBase(m);
      ErrsOnly(thr, current, ERROR, By(current));
      ErrsOnly(thr, current, thr[current].error, By(current));
      assert thr[current := thr[current].(error := thr[current].error)] == thr;
      if mutexes[m].owner != By(current) {
        SetsError(ERROR);
        thr := thr[current := thr[current].(error := ERROR)];
        return ERROR, false;
      }
      if mutexes[m].hold - 1 == 0 {
        if Waiters(lists, m) != [] {
          ReleaseTo(m, Waiters(lists, m)[0]);
          resched := true;
        } else {
          ReleaseFree(m);
        }
        SettledPrio(old(thr), old(lists), m, current, old(mutexes)[m].original);
        assert thr.Keys == old(thr).Keys;
      } else {
        StepOwns(thr, lists, link, alarm, sems, mutexes, pend, owed, forced, m,
          mutexes[m].(hold := mutexes[m].hold - 1));
        AllInheritHeld(thr, lists, mutexes, base, m, mutexes[m].hold - 1);
        mutexes := mutexes[m := mutexes[m].(hold := mutexes[m].hold - 1)];
      }
      e := EOK;
    }

    lemma OwnBase(m: Oid)
      ensures m in mutexes && Inherits(m) && mutexes[m].owner == By(current) ==>
        current in base && mutexes[m].original == base[current]
    {
    }

    lemma SettledPrio(thr0: Pool, lists0: Table, m: Oid, t: Tid, p: nat)
      requires Settled(thr0, lists0, m, t, p)
      ensures t in thr && thr[t].prio == p
      ensures thr.Keys == thr0.Keys ==> OnlyOwnerTuned(thr0, thr, By(t))
    {
    }
  }
}
