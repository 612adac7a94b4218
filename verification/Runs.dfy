/** Whole runs of the kernel: any interleaving of the steps, each taken by whoever may
    take it. The kernel is valid in every state up to a call that blocks although its caller
    cannot wait, and in none after it; while no call blocks under a locked scheduler there is
    none. As long as no thread takes a second mutex, and priorities are set only for threads
    that are involved with none, every mutex passes priority on.
 */
module Runs {

  import opened Bits
  import opened Ids
  import opened Kernel
  import opened Lists
  import opened Locks
  import opened Threads
  import opened Words

  datatype Step =
    | Schedule | Tick | Yield | Expire(t: Tid) | EnterCritical | ExitCritical
    | Init(t: Tid, prio: nat, ticks: nat) | Startup(t: Tid) | Suspend(t: Tid) | Resume(t: Tid) | Detach(t: Tid)
    | Control(t: Tid, prio: nat) | Sleep(ticks: nat) | SleepReturn
    | SemTake(o: Oid, time: int) | SemTakeReturn(o: Oid) | SemRelease(o: Oid) | SemReset(o: Oid, value: nat)
    | MutexTake(o: Oid, time: int) | MutexTakeReturn(o: Oid) | MutexRelease(o: Oid)

  /** t neither owns a mutex nor waits for an object. */
  predicate Uninvolved(mutexes: Mutexes, link: Links, t: Tid) {
    (forall m :: m in mutexes ==> mutexes[m].owner != By(t)) && (t in link ==> link[t].ReadyList?)
  }

  /** Mutexes and priorities are as before, and every mutex still passes priority on. */
  lemma StillDisciplined(k: System, thr0: Pool, lists0: Table, mutexes0: Mutexes)
    requires forall m :: Inherits(thr0, lists0, mutexes0, k.base, m) ==> k.Inherits(m)
    requires forall t :: t in k.thr ==> t in thr0 && k.thr[t].prio == thr0[t].prio
    requires k.mutexes.Keys == mutexes0.Keys && forall m :: m in mutexes0 ==> k.mutexes[m].owner == mutexes0[m].owner
    ensures Rested(thr0, mutexes0, k.base) ==>
      (forall m :: m in mutexes0 ==> Inherits(thr0, lists0, mutexes0, k.base, m)) ==> k.Disciplined()
  {
    hide Inherits;
    if Rested(thr0, mutexes0, k.base) { RestedFrame(thr0, k.thr, mutexes0, k.mutexes, k.base); }
  }

  // ----- what a step does -----

  /** The state of the kernel at one moment. */
  datatype View = View(thr: Pool, lists: Table, link: Links, alarm: map<Tid, nat>, current: Tid, lockNest: nat,
                       sems: Sems, mutexes: Mutexes, pend: map<Tid, Oid>)

  ghost function Now(k: System): View
    reads k
  {
    View(k.thr, k.lists, k.link, k.alarm, k.current, k.lockNest, k.sems, k.mutexes, k.pend)
  }

  /** The running thread is outside its calls, and in a careful run the scheduler is not
      locked. */
  ghost predicate MayBlock(v: View, careful: bool, idle: Tid) {
    v.current in v.thr && v.current !in v.pend && v.current != idle && (careful ==> v.lockNest == 0)
  }

  /** In a strict run nobody takes a second mutex. */
  ghost predicate MayTake(v: View, o: Oid, time: int, strict: bool, careful: bool, idle: Tid) {
    && v.current in v.thr && v.current !in v.pend
    && (strict ==> OwnsOnly(v.mutexes, v.current, o) && (v.current in v.link ==> v.link[v.current].ReadyList?))
    && (time == 0 || MayBlock(v, careful, idle))
  }

  ghost predicate Waits(v: View, t: Tid, o: Oid) {
    WaitsFor(v.link, t, o) && t in v.pend && v.pend[t] == o
  }

  ghost predicate Becomes(v: View, w: View, t: Tid, stat: Stat) {
    t in v.thr && w.thr == v.thr[t := v.thr[t].(stat := stat)]
  }

  /** What a step of the scheduler, the clock or the lock does. */
  ghost predicate Clocks(v: View, w: View, s: Step, careful: bool) {
    match s
    case Schedule =>
      if v.lockNest != 0 then w == v
      else
        && w == v.(current := w.current)
        && w.current in w.thr && Top(w.lists, w.thr[w.current].prio)
        && w.lists[ReadyList(w.thr[w.current].prio)][0] == w.current
    case Tick =>
      && v.current in v.thr && v.current in w.thr
      && (if v.thr[v.current].leftTick != 1 then w.lists == v.lists
          else v.thr[v.current].stat == READY ==> Requeued(v.lists, w.lists, v.current, v.thr[v.current].prio))
      && w.thr[v.current].leftTick ==
        (if v.thr[v.current].leftTick == 0 then WORD - 1
         else if v.thr[v.current].leftTick == 1 then v.thr[v.current].initTick else v.thr[v.current].leftTick - 1)
    case Yield =>
      && w == v.(lists := w.lists) && v.current in v.thr
      && (v.thr[v.current].stat == READY ==> Requeued(v.lists, w.lists, v.current, v.thr[v.current].prio))
    case Expire(t) =>
      t in v.alarm ==>
        t in v.thr && w.thr == v.thr[t := v.thr[t].(stat := READY, error := ETIMEOUT)] && w.alarm == v.alarm - {t}
    case EnterCritical =>
      (careful ==> v.current in v.thr && v.current !in v.pend) ==> w == v.(lockNest := v.lockNest + 1)
    case ExitCritical => w == v.(lockNest := if v.lockNest <= 1 then 0 else v.lockNest - 1)
    case _ => true
  }

  /** What creating or ending a thread does. */
  ghost predicate Lives(v: View, w: View, s: Step, careful: bool, idle: Tid) {
    match s
    case Init(t, prio, ticks) =>
      t !in v.thr && prio < PRIORITIES && ticks < WORD ==>
        w == v.(thr := v.thr[t := Thread(INIT, prio, prio, 0, EOK, ticks, ticks)])
    case Detach(t) => t in v.thr && t != idle && (careful ==> t != v.current) ==> Becomes(v, w, t, CLOSE)
    case _ => true
  }

  /** What setting a priority does. */
  ghost predicate Tunes(v: View, w: View, s: Step, strict: bool) {
    match s
    case Startup(t) =>
      t in v.thr && v.thr[t].stat == INIT && (strict ==> Uninvolved(v.mutexes, v.link, t)) ==>
        t in w.thr && w.thr[t].stat == READY && w.thr[t].prio == v.thr[t].initPrio
    case Control(t, prio) =>
      t in v.thr && prio < PRIORITIES && (strict ==> Uninvolved(v.mutexes, v.link, t)) ==>
        t in w.thr && w.thr[t].prio == prio
    case _ => true
  }

  /** What suspending, resuming or putting a thread to sleep does. */
  ghost predicate Stops(v: View, w: View, s: Step, idle: Tid) {
    match s
    case Suspend(t) => t in v.thr && t != idle && v.thr[t].stat == READY ==> Becomes(v, w, t, SUSPEND)
    case Resume(t) => t in v.thr && v.thr[t].stat == SUSPEND ==> Becomes(v, w, t, READY)
    case Sleep(ticks) =>
      MayBlock(v, false, idle) && ticks < HALF_TICKS ==>
        w.alarm == v.alarm[v.current := ticks] && (v.thr[v.current].stat == READY ==> Becomes(v, w, v.current, SUSPEND))
    case SleepReturn => w.current in w.thr && w.current !in v.pend ==> w.thr[w.current].error != ETIMEOUT
    case _ => true
  }

  /** What giving units of a semaphore does. */
  ghost predicate Gives(v: View, w: View, s: Step) {
    match s
    case SemRelease(o) =>
      o in v.sems ==>
        if Waiters(v.lists, o) != [] then Becomes(v, w, Waiters(v.lists, o)[0], READY)
        else v.sems[o].value < SEM_VALUE_MAX ==> w == v.(sems := v.sems[o := v.sems[o].(value := v.sems[o].value + 1)])
    case SemReset(o, value) =>
      o in v.sems ==>
        Waiters(w.lists, o) == [] && w.sems == v.sems[o := v.sems[o].(value := value % (SEM_VALUE_MAX + 1))]
    case _ => true
  }

  /** What asking for a unit does. */
  ghost predicate Asks(v: View, w: View, s: Step, careful: bool, idle: Tid) {
    match s
    case SemTake(o, time) =>
      o in v.sems && time < HALF_TICKS ==> AsksFor(v, w, o, time, MayBlock(v, careful, idle))
    case SemTakeReturn(o) =>
      o in v.sems && w.current in v.pend && v.pend[w.current] == o ==> w.pend == v.pend - {w.current}
    case _ => true
  }

  /** What a step of a mutex does. */
  ghost predicate Owns(v: View, w: View, s: Step, strict: bool, careful: bool, idle: Tid) {
    match s
    case MutexTake(o, time) =>
      o in v.mutexes && time < HALF_TICKS && MayTake(v, o, time, strict, careful, idle) ==> Takes(v, w, o, time)
    case MutexTakeReturn(o) =>
      o in v.mutexes && w.current in v.pend && v.pend[w.current] == o ==> w.pend == v.pend - {w.current}
    case MutexRelease(o) =>
      o in v.mutexes && v.current in v.thr && v.current !in v.pend ==> Releases(v, w, o)
    case _ => true
  }

  /** A free mutex is owned then, its owner's hold goes up, and everyone else waits. */
  ghost predicate Takes(v: View, w: View, o: Oid, time: int)
    requires o in v.mutexes
  {
    var x := v.mutexes[o];
    if x.owner == Nobody then o in w.mutexes && w.mutexes[o].owner == By(v.current) && w.mutexes[o].hold == 1
    else if x.owner == By(v.current) then
      x.hold < MUTEX_HOLD_MAX ==> w.mutexes == v.mutexes[o := x.(hold := x.hold + 1)]
    else time != 0 ==> Waits(w, v.current, o)
  }

  /** Its owner's hold goes down, and at last the first waiter owns it. */
  ghost predicate Releases(v: View, w: View, o: Oid)
    requires o in v.mutexes
  {
    var x := v.mutexes[o];
    if x.owner != By(v.current) then w.mutexes == v.mutexes
    else if x.hold > 1 then w.mutexes == v.mutexes[o := x.(hold := x.hold - 1)]
    else
      && o in w.mutexes
      && w.mutexes[o].owner == if Waiters(v.lists, o) == [] then Nobody else By(Waiters(v.lists, o)[0])
  }

  /** A unit is taken, and without one a thread that may block waits. */
  ghost predicate AsksFor(v: View, w: View, o: Oid, time: int, may: bool)
    requires o in v.sems
  {
    if v.sems[o].value > 0 then w == v.(sems := v.sems[o := v.sems[o].(value := v.sems[o].value - 1)])
    else time != 0 && may ==> Waits(w, v.current, o)
  }

  /** The step was taken. */
  ghost predicate Taken(v: View, w: View, s: Step, strict: bool, careful: bool, idle: Tid) {
    match s
    case Schedule | Tick | Yield | Expire(_) | EnterCritical | ExitCritical => Clocks(v, w, s, careful)
    case Init(_, _, _) | Detach(_) => Lives(v, w, s, careful, idle)
    case Startup(_) | Control(_, _) => Tunes(v, w, s, strict)
    case Suspend(_) | Resume(_) | Sleep(_) | SleepReturn => Stops(v, w, s, idle)
    case SemRelease(_) | SemReset(_, _) => Gives(v, w, s)
    case SemTake(_, _) | SemTakeReturn(_) => Asks(v, w, s, careful, idle)
    case MutexTake(_, _) | MutexTakeReturn(_) | MutexRelease(_) => Owns(v, w, s, strict, careful, idle)
  }

  // ----- a mutex whose owner is gone -----

  /** m is owned by t, which is CLOSEd and does not run. */
  ghost predicate Forsaken(k: System, m: Oid, t: Tid)
    reads k
  {
    t in k.thr && k.thr[t].stat == CLOSE && t != k.current && m in k.mutexes && k.mutexes[m].owner == By(t)
  }

  lemma WaiterIsSuspended(k: System, o: Oid, t: Tid)
    requires k.Valid()
    ensures t in Waiters(k.lists, o) ==> t in k.thr && k.thr[t].stat == SUSPEND
  {
    if t in Waiters(k.lists, o) {
      assert t in k.lists[WaitList(o)];
    }
  }

  // ----- who waits where -----

  /** Whoever is in a wait list is inside its call, and runs at most on its way to the
      scheduler. */
  ghost predicate Minded(lists: Table, pend: map<Tid, Oid>, current: Tid, lockNest: nat) {
    forall o, t :: t in Waiters(lists, o) ==> t in pend && (t == current ==> lockNest == 0)
  }

  ghost predicate Up(thr: Pool, t: Tid) {
    t in thr && (thr[t].stat == READY || thr[t].stat == SUSPEND)
  }

  ghost predicate Attended(k: System)
    reads k
  {
    Minded(k.lists, k.pend, k.current, k.lockNest) && Up(k.thr, k.current)
  }

  lemma MindedSame(lists: Table, lists': Table, pend: map<Tid, Oid>, current: Tid, lockNest: nat)
    requires SameWaiters(lists, lists')
    ensures Minded(lists, pend, current, lockNest) ==> Minded(lists', pend, current, lockNest)
  {
  }

  /** t leaves its wait list, and others stay inside their calls. */
  lemma MindedLeft(lists: Table, lists': Table, pend: map<Tid, Oid>, pend': map<Tid, Oid>, t: Tid, current: Tid,
                   lockNest: nat)
    requires Left(lists, lists', t) && forall u :: u in pend && u != t ==> u in pend'
    ensures Minded(lists, pend, current, lockNest) ==> Minded(lists', pend', current, lockNest)
  {
  }

  /** A call returns whose thread waits nowhere. */
  lemma MindedReturned(lists: Table, pend: map<Tid, Oid>, current: Tid, lockNest: nat)
    requires forall o :: current !in Waiters(lists, o)
    ensures Minded(lists, pend, current, lockNest) ==> Minded(lists, pend - {current}, current, lockNest)
  {
  }

  /** The current thread starts to wait, its scheduler not being locked. */
  lemma MindedJoined(lists: Table, lists': Table, pend: map<Tid, Oid>, o: Oid, thr: Pool, current: Tid, fifo: bool,
                     lockNest: nat)
    requires forall q :: q != o ==> Waiters(lists', q) == Waiters(lists, q)
    requires current in thr && Queues(Waiters(lists, o), Waiters(lists', o), thr, current, fifo) && lockNest == 0
    ensures Minded(lists, pend, current, lockNest) ==> Minded(lists', pend[current := o], current, lockNest)
  {
    if Minded(lists, pend, current, lockNest) {
      var k :| 0 <= k <= |Waiters(lists, o)| && Waiters(lists', o) == Splice(Waiters(lists, o), k, current);
      SpliceMembers(Waiters(lists, o), k, current);
      hide Queues, Splice;
    }
  }

  lemma MindedAborted(lists: Table, lists': Table, pend: map<Tid, Oid>, o: Oid, current: Tid, lockNest: nat)
    requires Waiters(lists', o) == [] && forall q :: q != o ==> Waiters(lists', q) == Waiters(lists, q)
    ensures Minded(lists, pend, current, lockNest) ==> Minded(lists', pend, current, lockNest)
  {
  }

  lemma UpAborted(thr: Pool, thr': Pool, before: seq<Tid>, t: Tid)
    requires Aborted(thr, thr', before, [])
    ensures Up(thr, t) ==> Up(thr', t)
  {
  }

  /** Outside its calls an attended thread can wait. */
  lemma AttendedWaits(k: System)
    requires k.Valid() && Attended(k) && k.Outside()
    ensures k.CanWait()
    ensures forall o :: k.current !in Waiters(k.lists, o)
  {
    assert k.current in k.link && k.link[k.current].WaitList? ==> k.current in Waiters(k.lists, k.link[k.current].obj);
  }

  lemma ReadyIsDone(k: System, t: Tid, o: Oid)
    requires k.Valid() && t in k.thr && k.thr[t].stat == READY
    ensures !WaitsFor(k.link, t, o)
  {
    k.WhereLinked(t);
    hide Scheduled, ObjectsFit, CallsFit, SuppliesFit;
  }

  lemma ReadyWaitsNowhere(k: System, t: Tid)
    requires k.Valid() && t in k.thr && k.thr[t].stat == READY
    ensures forall o :: t !in Waiters(k.lists, o)
  {
  }

  method DoClock(k: System, s: Step, careful: bool, ghost lost: Oid, ghost gone: Tid)
    requires k.Valid() && (s.Schedule? || s.Tick? || s.Yield? || s.Expire? || s.EnterCritical? || s.ExitCritical?)
    modifies k
    ensures old(Forsaken(k, lost, gone)) ==> Forsaken(k, lost, gone)
    ensures k.Valid() && (old(k.Disciplined()) ==> k.Disciplined())
    ensures careful && old(Attended(k)) ==> Attended(k)
    ensures Clocks(old(Now(k)), Now(k), s, careful)
  {
    hide Scheduled, ObjectsFit, CallsFit, SuppliesFit, Inherits, Rested, Moved, Left, Top, SameWaiters, Minded;
    match s {
      case Schedule =>
        k.Schedule();
        Rescheduled(k, old(k.current));
      case Tick =>
        var _ := k.Tick();
        StillDisciplined(k, old(k.thr), old(k.lists), old(k.mutexes));
        MindedSame(old(k.lists), k.lists, k.pend, k.current, k.lockNest);
      case Yield =>
        var _ := k.Yield();
        StillDisciplined(k, old(k.thr), old(k.lists), old(k.mutexes));
        MindedSame(old(k.lists), k.lists, k.pend, k.current, k.lockNest);
      case Expire(t) =>
        if t in k.alarm {
          k.Expire(t);
          StillDisciplined(k, old(k.thr), old(k.lists), old(k.mutexes));
          MindedLeft(old(k.lists), k.lists, k.pend, k.pend, t, k.current, k.lockNest);
        }
      case EnterCritical =>
        if careful ==> k.Outside() {
          if careful && Attended(k) { NotWaiting(k); }
          k.EnterCritical();
        }
      case ExitCritical =>
        Unlocks(k);
        var _ := k.ExitCritical();
    }
  }

  lemma Rescheduled(k: System, before: Tid)
    requires k.Valid() && (k.lockNest != 0 ==> k.current == before)
    requires k.lockNest == 0 ==> k.current in k.thr && k.thr[k.current].stat == READY
    ensures Minded(k.lists, k.pend, before, k.lockNest) && Up(k.thr, before) ==>
      Attended(k) && forall o :: k.current !in Waiters(k.lists, o)
  {
    if k.lockNest == 0 { ReadyWaitsNowhere(k, k.current); }
  }

  lemma NotWaiting(k: System)
    requires k.Valid() && Attended(k) && k.Outside()
    ensures Minded(k.lists, k.pend, k.current, k.lockNest + 1)
  {
    AttendedWaits(k);
  }

  lemma Unlocks(k: System)
    ensures Minded(k.lists, k.pend, k.current, k.lockNest)
      ==> Minded(k.lists, k.pend, k.current, if k.lockNest <= 1 then 0 else k.lockNest - 1)
  {
  }

  method DoThread(k: System, s: Step, ghost lost: Oid, ghost gone: Tid)
    requires k.Valid() && (s.Suspend? || s.Resume?)
    modifies k
    ensures old(Forsaken(k, lost, gone)) ==> Forsaken(k, lost, gone)
    ensures k.Valid() && (old(k.Disciplined()) ==> k.Disciplined())
    ensures old(Attended(k)) ==> Attended(k)
    ensures Stops(old(Now(k)), Now(k), s, k.idle)
  {
    hide Scheduled, ObjectsFit, CallsFit, SuppliesFit, Inherits, Rested, Moved, Dropped, Left, SameWaiters, Mask,
      Minded, Top;
    match s {
      case Suspend(t) =>
        if t in k.thr && t != k.idle {
          var _ := k.Suspend(t);
          StillDisciplined(k, old(k.thr), old(k.lists), old(k.mutexes));
          MindedSame(old(k.lists), k.lists, k.pend, k.current, k.lockNest);
        }
      case Resume(t) =>
        if t in k.thr {
          var e := k.Resume(t);
          StillDisciplined(k, old(k.thr), old(k.lists), old(k.mutexes));
          if e == EOK { MindedLeft(old(k.lists), k.lists, k.pend, k.pend, t, k.current, k.lockNest); }
        }
    }
  }

  method DoSleep(k: System, s: Step, ghost lost: Oid, ghost gone: Tid) returns (ok: bool)
    requires k.Valid() && (s.Sleep? || s.SleepReturn?)
    modifies k
    ensures ok && old(Forsaken(k, lost, gone)) ==> Forsaken(k, lost, gone)
    ensures ok <==> k.Valid()
    ensures ok && old(k.Disciplined()) ==> k.Disciplined()
    ensures old(Attended(k)) ==> ok && Attended(k)
    ensures Stops(old(Now(k)), Now(k), s, k.idle)
  {
    hide Scheduled, ObjectsFit, CallsFit, SuppliesFit, Inherits, Rested, Moved, Dropped, Left, SameWaiters, Mask,
      Minded, Top;
    ok := true;
    match s {
      case Sleep(ticks) =>
        if k.Outside() && k.current != k.idle && ticks < HALF_TICKS {
          ok := k.thr[k.current].stat == READY || k.thr[k.current].stat == SUSPEND;
          k.Sleep(ticks);
          if ok { StillDisciplined(k, old(k.thr), old(k.lists), old(k.mutexes)); }
          MindedSame(old(k.lists), k.lists, k.pend, k.current, k.lockNest);
        }
      case SleepReturn =>
        k.Schedule();
        Rescheduled(k, old(k.current));
        if k.Outside() {
          k.SleepReturn();
          StillDisciplined(k, old(k.thr), old(k.lists), old(k.mutexes));
        }
    }
  }

  method DoLife(k: System, s: Step, careful: bool, ghost lost: Oid, ghost gone: Tid)
    requires k.Valid() && (s.Init? || s.Detach?)
    modifies k
    ensures old(Forsaken(k, lost, gone)) ==> Forsaken(k, lost, gone)
    ensures k.Valid() && (old(k.Disciplined()) ==> k.Disciplined())
    ensures careful && old(Attended(k)) ==> Attended(k)
    ensures Lives(old(Now(k)), Now(k), s, careful, k.idle)
  {
    hide Scheduled, ObjectsFit, CallsFit, SuppliesFit, Inherits, Rested, Moved, Dropped, Left, SameWaiters, Mask,
      Minded;
    match s {
      case Init(t, prio, ticks) =>
        if t !in k.thr && prio < PRIORITIES && ticks < WORD {
          k.Init(t, prio, ticks);
          if old(k.Disciplined()) { GrownDisciplined(k, old(k.thr), old(k.base), t); }
        }
      case Detach(t) =>
        if t in k.thr && t != k.idle && (careful ==> t != k.current) {
          k.Detach(t);
          StillDisciplined(k, old(k.thr), old(k.lists), old(k.mutexes));
          MindedLeft(old(k.lists), k.lists, old(k.pend), k.pend, t, k.current, k.lockNest);
        }
    }
  }

  method DoPriority(k: System, s: Step, strict: bool, ghost lost: Oid, ghost gone: Tid)
    requires k.Valid() && (s.Startup? || s.Control?)
    modifies k
    ensures old(Forsaken(k, lost, gone)) ==> Forsaken(k, lost, gone)
    ensures k.Valid() && (strict && old(k.Disciplined()) ==> k.Disciplined())
    ensures old(Attended(k)) ==> Attended(k)
    ensures Tunes(old(Now(k)), Now(k), s, strict)
  {
    hide Scheduled, ObjectsFit, CallsFit, SuppliesFit, Inherits, Rested, Moved, Dropped, Left, SameWaiters, Mask,
      Minded;
    match s {
      case Startup(t) =>
        if t in k.thr && k.thr[t].stat == INIT && (strict ==> Uninvolved(k.mutexes, k.link, t)) {
          if strict { NoContender(k, t); }
          var _ := k.Startup(t);
          if strict && old(k.Disciplined()) { RebasedDisciplined(k, old(k.thr), old(k.base), t); }
          MindedLeft(old(k.lists), k.lists, k.pend, k.pend, t, k.current, k.lockNest);
        }
      case Control(t, prio) =>
        if t in k.thr && prio < PRIORITIES && (strict ==> Uninvolved(k.mutexes, k.link, t)) {
          if strict { NoContender(k, t); }
          k.Control(t, prio);
          if strict && old(k.Disciplined()) { RebasedDisciplined(k, old(k.thr), old(k.base), t); }
          MindedSame(old(k.lists), k.lists, k.pend, k.current, k.lockNest);
        }
    }
  }

  lemma NoContender(k: System, t: Tid)
    requires k.Valid() && Uninvolved(k.mutexes, k.link, t)
    ensures forall m :: !Contends(k.lists, k.mutexes, t, m)
  {
  }

  /** The new thread is at its own priority. */
  lemma GrownDisciplined(k: System, thr0: Pool, base0: map<Tid, nat>, t: Tid)
    requires Rested(thr0, k.mutexes, base0) && t in k.thr && t in k.base && k.thr[t].prio == k.base[t]
    requires k.thr == thr0[t := k.thr[t]] && k.base == base0[t := k.base[t]]
    requires forall m :: m in k.mutexes ==> k.Inherits(m)
    ensures k.Disciplined()
  {
    hide Inherits;
  }

  lemma RebasedDisciplined(k: System, thr0: Pool, base0: map<Tid, nat>, t: Tid)
    requires Rested(thr0, k.mutexes, base0) && t in k.thr && t in k.base && k.thr[t].prio == k.base[t]
    requires k.thr == thr0[t := k.thr[t]] && k.base == base0[t := k.base[t]]
    requires forall m :: m in k.mutexes ==> k.Inherits(m)
    ensures k.Disciplined()
  {
    GrownDisciplined(k, thr0, base0, t);
  }

  method DoSemTake(k: System, s: Step, careful: bool, ghost lost: Oid, ghost gone: Tid) returns (ok: bool)
    requires k.Valid() && (s.SemTake? || s.SemTakeReturn?)
    modifies k
    ensures ok && old(Forsaken(k, lost, gone)) ==> Forsaken(k, lost, gone)
    ensures ok <==> k.Valid()
    ensures ok && old(k.Disciplined()) ==> k.Disciplined()
    ensures careful && old(Attended(k)) ==> ok && Attended(k)
    ensures Asks(old(Now(k)), Now(k), s, careful, k.idle)
  {
    hide Scheduled, ObjectsFit, CallsFit, SuppliesFit, Inherits, Rested, Waiters, WaitsFor, Minded, Top, AsksFor, Takes,
      Releases, MayBlock;
    ok := true;
    match s {
      case SemTake(o, time) =>
        ok := SemTakeStep(k, o, time, careful, lost, gone);
      case SemTakeReturn(o) =>
        k.Schedule();
        Rescheduled(k, old(k.current));
        if o in k.sems && k.current in k.pend && k.pend[k.current] == o {
          ghost var pend := k.pend;
          var _ := k.SemTakeReturn(o);
          if careful && old(Attended(k)) { MindedReturned(k.lists, pend, k.current, k.lockNest); }
        }
    }
  }

  method DoSem(k: System, s: Step, ghost lost: Oid, ghost gone: Tid)
    requires k.Valid() && (s.SemRelease? || s.SemReset?)
    modifies k
    ensures old(Forsaken(k, lost, gone)) ==> Forsaken(k, lost, gone)
    ensures k.Valid() && (old(k.Disciplined()) ==> k.Disciplined())
    ensures old(Attended(k)) ==> Attended(k)
    ensures Gives(old(Now(k)), Now(k), s)
  {
    hide Scheduled, ObjectsFit, CallsFit, SuppliesFit, Inherits, Rested, Moved, Waiters, Aborted, WaitsFor, Minded,
      Left;
    match s {
      case SemRelease(o) =>
        if o in k.sems {
          WaiterIsSuspended(k, o, gone);
          var t := if Waiters(k.lists, o) != [] then Waiters(k.lists, o)[0] else 0;
          var _, resched := k.SemRelease(o);
          StillDisciplined(k, old(k.thr), old(k.lists), old(k.mutexes));
          if resched { MindedLeft(old(k.lists), k.lists, k.pend, k.pend, t, k.current, k.lockNest); }
        }
      case SemReset(o, value) =>
        if o in k.sems {
          WaiterIsSuspended(k, o, gone);
          var _ := k.SemReset(o, value);
          AbortedPrios(old(k.thr), k.thr, old(Waiters(k.lists, o)));
          AbortedOther(old(k.thr), k.thr, old(Waiters(k.lists, o)), gone);
          StillDisciplined(k, old(k.thr), old(k.lists), old(k.mutexes));
          MindedAborted(old(k.lists), k.lists, k.pend, o, k.current, k.lockNest);
          UpAborted(old(k.thr), k.thr, old(Waiters(k.lists, o)), k.current);
        }
    }
  }

  method SemTakeStep(k: System, o: Oid, time: int, careful: bool, ghost lost: Oid, ghost gone: Tid) returns (ok: bool)
    requires k.Valid()
    modifies k
    ensures ok && old(Forsaken(k, lost, gone)) ==> Forsaken(k, lost, gone)
    ensures ok <==> k.Valid()
    ensures ok && old(k.Disciplined()) ==> k.Disciplined()
    ensures careful && old(Attended(k)) ==> ok && Attended(k)
    ensures o in old(Now(k)).sems && time < HALF_TICKS ==>
      AsksFor(old(Now(k)), Now(k), o, time, old(MayBlock(Now(k), careful, k.idle)))
  {
    hide Scheduled, ObjectsFit, CallsFit, SuppliesFit, Inherits, Rested, Waiters, Queues, Minded;
    ok := true;
    if o in k.sems && time < HALF_TICKS
      && (k.sems[o].value > 0 || time == 0 || (k.Outside() && k.current != k.idle && (careful ==> k.lockNest == 0)))
    {
      var can := k.CanWait();
      if Attended(k) && k.Outside() { AttendedWaits(k); }
      var r := k.SemTake(o, time);
      ok := r.Done? || can;
      if ok { StillDisciplined(k, old(k.thr), old(k.lists), old(k.mutexes)); }
      if ok && r.Blocked? && k.lockNest == 0 {
        MindedJoined(old(k.lists), k.lists, old(k.pend), o, old(k.thr), k.current, k.sems[o].fifo, k.lockNest);
      }
    }
  }

  lemma AbortedPrios(thr: Pool, thr': Pool, before: seq<Tid>)
    requires Aborted(thr, thr', before, [])
    ensures forall t :: t in thr' ==> t in thr && thr'[t].prio == thr[t].prio
  {
  }

  lemma AbortedOther(thr: Pool, thr': Pool, before: seq<Tid>, t: Tid)
    requires Aborted(thr, thr', before, [])
    ensures t in thr && t !in before ==> t in thr' && thr'[t] == thr[t]
  {
  }

  method DoMutex(k: System, s: Step, strict: bool, careful: bool, ghost lost: Oid, ghost gone: Tid) returns (ok: bool)
    requires k.Valid() && (s.MutexTake? || s.MutexTakeReturn? || s.MutexRelease?)
    modifies k
    ensures ok && old(Forsaken(k, lost, gone)) ==> Forsaken(k, lost, gone)
    ensures ok <==> k.Valid()
    ensures ok && strict && old(k.Disciplined()) ==> k.Disciplined()
    ensures careful && old(Attended(k)) ==> ok && Attended(k)
    ensures Owns(old(Now(k)), Now(k), s, strict, careful, k.idle)
  {
    hide Scheduled, ObjectsFit, CallsFit, SuppliesFit, Inherits, Rested, Waiters, WaitsFor, Minded, Top, AsksFor, Takes,
      Releases, MayBlock;
    ok := true;
    match s {
      case MutexTake(o, time) =>
        ok := MutexTakeStep(k, o, time, strict, careful, lost, gone);
      case MutexTakeReturn(o) =>
        k.Schedule();
        Rescheduled(k, old(k.current));
        if o in k.mutexes && k.current in k.pend && k.pend[k.current] == o {
          ghost var pend := k.pend;
          var _ := k.MutexTakeReturn(o);
          if careful && old(Attended(k)) { MindedReturned(k.lists, pend, k.current, k.lockNest); }
        }
      case MutexRelease(o) =>
        MutexReleaseStep(k, o, lost, gone);
    }
  }

  method MutexTakeStep(k: System, o: Oid, time: int, strict: bool, careful: bool, ghost lost: Oid, ghost gone: Tid)
      returns (ok: bool)
    requires k.Valid()
    modifies k
    ensures ok && old(Forsaken(k, lost, gone)) ==> Forsaken(k, lost, gone)
    ensures ok <==> k.Valid()
    ensures ok && strict && old(k.Disciplined()) ==> k.Disciplined()
    ensures careful && old(Attended(k)) ==> ok && Attended(k)
    ensures o in old(Now(k)).mutexes && time < HALF_TICKS && old(MayTake(Now(k), o, time, strict, careful, k.idle)) ==>
      Takes(old(Now(k)), Now(k), o, time)
  {
    hide Scheduled, ObjectsFit, CallsFit, SuppliesFit, Inherits, Rested, Waiters, Minded;
    ok := true;
    if o in k.mutexes && time < HALF_TICKS && k.Outside() &&
      (strict ==> OwnsOnly(k.mutexes, k.current, o) && k.Unqueued())
      && (time == 0 || (k.current != k.idle && (careful ==> k.lockNest == 0)))
    {
      if Attended(k) { AttendedWaits(k); }
      ok := TakeMutex(k, o, time, strict, lost, gone);
    }
  }

  /** A take of a mutex by a thread in no other call. */
  method TakeMutex(k: System, o: Oid, time: int, strict: bool, ghost lost: Oid, ghost gone: Tid) returns (ok: bool)
    requires k.Valid() && o in k.mutexes && time < HALF_TICKS && k.Outside() && (time == 0 || k.current != k.idle)
    requires strict ==> OwnsOnly(k.mutexes, k.current, o) && k.Unqueued()
    modifies k`thr, k`lists, k`link, k`group, k`alarm, k`mutexes, k`pend
    ensures (ok <==> k.Valid()) && (ok <== time == 0 || old(k.CanWait()))
    ensures ok && old(Forsaken(k, lost, gone)) ==> Forsaken(k, lost, gone)
    ensures ok && strict && old(k.Disciplined()) ==> k.Disciplined()
    ensures ok && k.lockNest == 0 && old(Attended(k)) ==> Attended(k)
    ensures ok && time == 0 && old(Attended(k)) ==> Attended(k)
    ensures Takes(old(Now(k)), Now(k), o, time)
  {
    hide Scheduled, ObjectsFit, CallsFit, SuppliesFit, Inherits, Rested, Waiters, WaitsFor, Queues, Orderly,
      OnlyOwnerTuned, OwnsOnly, Minded, Locks.Raised, System.RaisedAndBlocked, System.Unqueued, Waits, Up;
    var can := k.CanWait();
    k.MutexState(o);
    if strict && k.Disciplined() { OrderlyAll(k.thr, k.mutexes, k.base, k.current, o); }
    var r := k.MutexTake(o, time);
    ok := r.Done? || can;
    if !ok {
      IsWaiting(k, o);
      return;
    }
    if strict && old(k.Disciplined()) { RestedTaken(old(k.thr), k.thr, old(k.mutexes), k.mutexes, k.base, o); }
    if r.Blocked? {
      MindedBlocked(k, old(k.thr), old(k.lists), old(k.pend), o, old(k.mutexes)[o].owner.tid, time, gone);
    } else {
      UpSame(old(k.thr), k.thr, k.current);
    }
  }

  lemma UpSame(thr: Pool, thr': Pool, t: Tid)
    requires t in thr ==> t in thr' && thr'[t].stat == thr[t].stat
    ensures Up(thr, t) ==> Up(thr', t)
  {
  }

  lemma IsWaiting(k: System, o: Oid)
    requires k.current in k.link && k.link[k.current] == WaitList(o) && k.current in k.pend && k.pend[k.current] == o
    ensures Waits(Now(k), k.current, o)
  {
  }

  lemma MindedBlocked(k: System, thr0: Pool, lists0: Table, pend0: map<Tid, Oid>, o: Oid, owner: Tid, time: int, t: Tid)
    requires k.current in thr0 && o in k.mutexes && k.RaisedAndBlocked(thr0, lists0, o, owner, k.mutexes[o].fifo, time)
    requires k.pend == pend0[k.current := o]
    ensures k.lockNest == 0 && Minded(lists0, pend0, k.current, k.lockNest) ==> Attended(k)
    ensures t in thr0 && t != k.current ==> t in k.thr && k.thr[t].stat == thr0[t].stat
    ensures Waits(Now(k), k.current, o)
  {
    if k.lockNest == 0 { MindedJoined(lists0, k.lists, pend0, o, thr0, k.current, k.mutexes[o].fifo, k.lockNest); }
    hide Queues, Minded, Waiters, Locks.Raised;
  }

  method MutexReleaseStep(k: System, o: Oid, ghost lost: Oid, ghost gone: Tid)
    requires k.Valid()
    modifies k
    ensures old(Forsaken(k, lost, gone)) ==> Forsaken(k, lost, gone)
    ensures k.Valid() && (old(k.Disciplined()) ==> k.Disciplined())
    ensures old(Attended(k)) ==> Attended(k)
    ensures o in old(Now(k)).mutexes && old(k.Outside()) ==> Releases(old(Now(k)), Now(k), o)
  {
    hide Scheduled, ObjectsFit, CallsFit, SuppliesFit, Inherits, Rested, Waiters, OnlyOwnerTuned, Minded, Left,
      SameWaiters, WaitsFor, System.Inherits, System.Released, System.Settled, Up;
    if o in k.mutexes && k.Outside() {
      k.MutexState(o);
      WaiterIsSuspended(k, o, gone);
      var _, _ := k.MutexRelease(o);
      if old(k.Disciplined()) { RestedReleased(old(k.thr), k.thr, old(k.mutexes), k.mutexes, k.base, o, k.current); }
      if old(k.mutexes)[o].owner == By(k.current) && old(k.mutexes)[o].hold == 1 {
        MindedSettled(k, old(k.thr), old(k.lists), o, old(k.mutexes)[o].original);
        SettledOther(k, old(k.thr), old(k.lists), o, old(k.mutexes)[o].original, gone);
      } else {
        UpSame(old(k.thr), k.thr, k.current);
      }
    }
  }

  lemma SettledOther(k: System, thr0: Pool, lists0: Table, o: Oid, p: nat, t: Tid)
    requires k.Settled(thr0, lists0, o, k.current, p)
    ensures t in thr0 && t != k.current && t !in Waiters(lists0, o) ==> t in k.thr && k.thr[t] == thr0[t]
  {
  }

  lemma MindedSettled(k: System, thr0: Pool, lists0: Table, o: Oid, p: nat)
    requires k.Settled(thr0, lists0, o, k.current, p)
    ensures Minded(lists0, k.pend, k.current, k.lockNest) && Up(thr0, k.current) ==> Attended(k)
  {
    var ws := Waiters(lists0, o);
    if ws == [] {
      MindedSame(lists0, k.lists, k.pend, k.current, k.lockNest);
    } else {
      MindedLeft(lists0, k.lists, k.pend, k.pend, ws[0], k.current, k.lockNest);
    }
    hide Minded, Left, SameWaiters, Waiters;
  }

  // ----- round robin -----

  /** The current thread is the head of the first ready list that is not empty. */
  ghost predicate RunsOnTop(k: System)
    reads k
  {
    && k.current in k.thr && k.thr[k.current].stat == READY && k.lockNest == 0
    && Top(k.lists, k.thr[k.current].prio) && k.lists[ReadyList(k.thr[k.current].prio)][0] == k.current
  }

  lemma OnTop(k: System, p: nat)
    requires k.Valid() && RunsOnTop(k) && p == k.thr[k.current].prio
    ensures Linked(k.lists, k.link) && k.current in k.link && k.link[k.current] == ReadyList(p)
    ensures ReadyList(p) in k.lists && k.lists[ReadyList(p)] != [] && k.lists[ReadyList(p)][0] == k.current
  {
  }

  /** rt_thread_yield and rt_schedule: the next thread of the top list runs. */
  method Pass(k: System, p: nat)
    requires k.Valid() && RunsOnTop(k) && p == k.thr[k.current].prio && ReadyList(p) in k.lists &&
      k.lists[ReadyList(p)] != []
    modifies k`lists, k`current
    ensures k.Valid() && RunsOnTop(k) && k.thr[k.current].prio == p
    ensures k.lists == old(k.lists)[ReadyList(p) := Rotated(old(k.lists)[ReadyList(p)])]
    ensures k.current == Rotated(old(k.lists)[ReadyList(p)])[0]
  {
    hide Scheduled, ObjectsFit, CallsFit, SuppliesFit, Inherits, Moved, Linked, Top, SameWaiters;
    OnTop(k, p);
    YieldRotates(k.lists, k.link, k.current, p);
    TopStays(k.lists, p, Rotated(k.lists[ReadyList(p)]));
    var resched := k.Yield();
    if !resched {
      assert Rotated(k.lists[ReadyList(p)]) == k.lists[ReadyList(p)];
      assert k.lists == old(k.lists)[ReadyList(p) := Rotated(old(k.lists)[ReadyList(p)])];
    }
    k.Schedule();
    TopUnique(k.lists, p, k.thr[k.current].prio);
  }

  /** As many yields as there are threads at the top priority run each of them once and
      leave the ready lists as they were. */
  method TakeTurns(k: System) returns (ghost ran: seq<Tid>)
    requires k.Valid() && RunsOnTop(k)
    modifies k`lists, k`current
    ensures k.Valid() && RunsOnTop(k)
    ensures k.lists == old(k.lists) && k.current == old(k.current)
    ensures ReadyList(k.thr[k.current].prio) in k.lists && ran == k.lists[ReadyList(k.thr[k.current].prio)]
  {
    hide Top, Rotated, Scheduled, ObjectsFit, CallsFit, SuppliesFit;
    var p := k.thr[k.current].prio;
    OnTop(k, p);
    ghost var ring := k.lists[ReadyList(p)];
    ran := [];
    RoundRobin(ring, 0);
    for i := 0 to |k.lists[ReadyList(p)]|
      invariant k.Valid() && RunsOnTop(k) && k.thr[k.current].prio == p
      invariant k.lists == old(k.lists)[ReadyList(p) := Rotations(ring, i)] && k.current == Rotations(ring, i)[0]
      invariant ran == ring[..i]
    {
      RoundRobin(ring, i);
      ran := ran + [k.current];
      Pass(k, p);
    }
    RoundRobin(ring, |ring|);
  }

  // ----- a locked scheduler -----

  /** A take of a mutex that another thread owns, up to the end of rt_schedule, and if the
      caller goes on at once, to its end: it goes on at once if and only if the scheduler is
      locked, and then it is told that it took the mutex, although it did not. */
  method MutexTakeAtOnce(k: System, m: Oid, time: int) returns (r: Outcome)
    requires k.Valid() && k.Free() && k.current != k.idle && m in k.mutexes && MustWait(k.sems, k.mutexes, k.current, m)
    requires time != 0 && time < HALF_TICKS
    modifies k
    ensures k.Valid() && k.lockNest == old(k.lockNest)
    ensures k.current == old(k.current) <==> k.lockNest != 0
    ensures r == if k.lockNest != 0 then Done(EOK) else Blocked
    ensures k.lockNest != 0 ==> m in k.mutexes && k.mutexes[m].owner != By(k.current) && WaitsFor(k.link, k.current, m)
    ensures k.lockNest != 0 ==> k.mutexes == old(k.mutexes) && k.current !in k.pend
  {
    hide Scheduled, ObjectsFit, CallsFit, SuppliesFit, Inherits, Locks.Raised, Queues, Waiters, OnlyOwnerTuned,
      Orderly, Top;
    var caller := k.current;
    k.MutexState(m);
    r := k.MutexTake(m, time);
    k.Schedule();
    if k.current == caller {
      var e := k.MutexTakeReturn(m);
      r := Done(e);
    }
  }

  lemma BlockedWaits(k: System, thr0: Pool, lists0: Table, link0: Links, alarm0: map<Tid, nat>, pend0: map<Tid, Oid>,
                     o: Oid, fifo: bool, time: int)
    requires k.current in thr0 && k.Blocks(thr0, lists0, link0, alarm0, pend0, o, fifo, time)
    ensures WaitsFor(k.link, k.current, o) && k.current in k.pend && k.pend[k.current] == o
    ensures k.current in k.thr && k.thr[k.current].stat == SUSPEND
  {
    hide Queues, Waiters;
  }

  /** The same for a semaphore without units. */
  method SemTakeAtOnce(k: System, s: Oid, time: int) returns (r: Outcome)
    requires k.Valid() && k.Free() && k.current != k.idle && s in k.sems && k.sems[s].value == 0
    requires time != 0 && time < HALF_TICKS
    modifies k
    ensures k.Valid() && k.lockNest == old(k.lockNest)
    ensures k.current == old(k.current) <==> k.lockNest != 0
    ensures r == if k.lockNest != 0 then Done(EOK) else Blocked
    ensures k.lockNest != 0 ==> k.supply == old(k.supply) && k.current !in k.owed && WaitsFor(k.link, k.current, s)
    ensures k.lockNest != 0 ==> k.sems == old(k.sems) && k.current !in k.pend
  {
    hide Scheduled, ObjectsFit, CallsFit, SuppliesFit, Inherits, Waiters, Top, WaitsFor, System.OwnerRuns,
      System.Blocks;
    var caller := k.current;
    r := k.SemTake(s, time);
    BlockedWaits(k, old(k.thr), old(k.lists), old(k.link), old(k.alarm), old(k.pend), s, k.sems[s].fifo, time);
    k.Schedule();
    if k.current == caller {
      var e := k.SemTakeReturn(s);
      r := Done(e);
    }
  }

  /** Under an unlocked scheduler a thread inside a take of a mutex that runs again is told
      that it took it if and only if it owns it, or rt_thread_resume took it out of its
      wait. */
  method MutexTakeResumed(k: System, m: Oid) returns (ran: bool, e: Error)
    requires k.Valid() && m in k.mutexes && k.lockNest == 0
    modifies k
    ensures k.Valid() && m in k.mutexes && (ran <==> k.current in old(k.pend) && old(k.pend)[k.current] == m)
    ensures ran ==> (e == EOK <==> (k.mutexes[m].owner == By(k.current) || k.current in old(k.forced)))
    ensures ran && k.current in old(k.forced) ==> k.mutexes[m].owner != By(k.current)
  {
    hide Scheduled, ObjectsFit, CallsFit, SuppliesFit, Inherits, Waiters, Top, WaitsFor, System.OwnerRuns;
    k.Schedule();
    ran, e := false, EOK;
    if k.current in k.pend && k.pend[k.current] == m {
      ReadyIsDone(k, k.current, m);
      e := k.MutexTakeReturn(m);
      ran := true;
    }
  }

  /** The same for a semaphore: it was woken with a unit, or resumed. */
  method SemTakeResumed(k: System, s: Oid) returns (ran: bool, e: Error)
    requires k.Valid() && s in k.sems && k.lockNest == 0
    modifies k
    ensures k.Valid() && (ran <==> k.current in old(k.pend) && old(k.pend)[k.current] == s)
    ensures ran ==> (e == EOK <==> k.current in old(k.owed) || k.current in old(k.forced))
    ensures ran && k.current in old(k.forced) ==> k.current !in old(k.owed)
  {
    hide Scheduled, ObjectsFit, CallsFit, SuppliesFit, Inherits, Waiters, Top, WaitsFor, System.OwnerRuns;
    k.Schedule();
    ran, e := false, EOK;
    if k.current in k.pend && k.pend[k.current] == s {
      ReadyIsDone(k, k.current, s);
      e := k.SemTakeReturn(s);
      ran := true;
    }
  }

  /** From a state that is valid and attended, as the initial one is, every run stays valid
      and attended in which no call blocks under a locked scheduler and no thread detaches
      itself. Whatever the run, it stays valid up to the first call that blocks although its
      caller cannot wait, and is not valid after it. In a strict run, in which no thread
      takes a second mutex and priorities are set only for threads involved with none,
      mutexes also pass priority on, and threads without a mutex are at their own
      priority. If a thread that is gone owns a mutex, it does so in every later state. */
  method Run(k: System, steps: seq<Step>, strict: bool, careful: bool, ghost lost: Oid, ghost gone: Tid)
      returns (done: nat, ok: bool, ghost trace: seq<View>)
    requires k.Valid()
    modifies k
    ensures done <= |steps| && (ok ==> done == |steps|)
    ensures |trace| == done + 1 && trace[0] == old(Now(k)) && trace[done] == Now(k)
    ensures forall i :: 0 <= i < done ==> Taken(trace[i], trace[i + 1], steps[i], strict, careful, k.idle)
    ensures ok <==> k.Valid()
    ensures ok && old(Forsaken(k, lost, gone)) ==> Forsaken(k, lost, gone)
    ensures careful && old(Attended(k)) ==> ok && Attended(k)
    ensures ok && strict && old(k.Disciplined()) ==> k.Disciplined()
  {
    hide System.Valid, System.Disciplined, Attended, Forsaken, Taken, Now;
    done, ok := 0, true;
    trace := [Now(k)];
    while done < |steps| && ok
      invariant done <= |steps| && (ok <==> k.Valid())
      invariant |trace| == done + 1 && trace[0] == old(Now(k)) && trace[done] == Now(k)
      invariant forall i :: 0 <= i < done ==> Taken(trace[i], trace[i + 1], steps[i], strict, careful, k.idle)
      invariant ok && strict && old(k.Disciplined()) ==> k.Disciplined()
      invariant careful && old(Attended(k)) ==> ok && Attended(k)
      invariant ok && old(Forsaken(k, lost, gone)) ==> Forsaken(k, lost, gone)
    {
      ok := Do(k, steps[done], strict, careful, lost, gone);
      trace := trace + [Now(k)];
      done := done + 1;
    }
  }

  method Do(k: System, s: Step, strict: bool, careful: bool, ghost lost: Oid, ghost gone: Tid) returns (ok: bool)
    requires k.Valid()
    modifies k
    ensures ok && old(Forsaken(k, lost, gone)) ==> Forsaken(k, lost, gone)
    ensures ok <==> k.Valid()
    ensures ok && strict && old(k.Disciplined()) ==> k.Disciplined()
    ensures careful && old(Attended(k)) ==> ok && Attended(k)
    ensures Taken(old(Now(k)), Now(k), s, strict, careful, k.idle)
  {
    hide System.Valid, System.Disciplined, Attended, Forsaken, Now, Clocks, Lives, Tunes, Stops, Gives, Asks, Owns;
    ok := true;
    match s {
      case Schedule | Tick | Yield | Expire(_) | EnterCritical | ExitCritical => DoClock(k, s, careful, lost, gone);
      case Suspend(_) | Resume(_) => DoThread(k, s, lost, gone);
      case Init(_, _, _) | Detach(_) => DoLife(k, s, careful, lost, gone);
      case Startup(_) | Control(_, _) => DoPriority(k, s, strict, lost, gone);
      case Sleep(_) | SleepReturn => ok := DoSleep(k, s, lost, gone);
      case SemRelease(_) | SemReset(_, _) => DoSem(k, s, lost, gone);
      case SemTake(_, _) | SemTakeReturn(_) => ok := DoSemTake(k, s, careful, lost, gone);
      case MutexTake(_, _) | MutexTakeReturn(_) | MutexRelease(_) =>
        ok := DoMutex(k, s, strict, careful, lost, gone);
    }
  }
}
