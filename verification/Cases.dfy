/** Runs from the start of the kernel to the states in which a call does not do what its
    return code says, and the run of any steps from the start.
 */
module Cases {

  import opened Bits
  import opened Ids
  import opened Kernel
  import opened Locks
  import opened Runs
  import opened Threads

  /** Every run from the start in which no call blocks under a locked scheduler and no thread
      detaches itself stays valid; with priority-ordered mutexes only, in a strict run, they
      pass priority on throughout. */
  method RunFromStart(idle: Tid, values: map<Oid, nat>, flags: map<Oid, bool>, fifos: map<Oid, bool>,
                      steps: seq<Step>, strict: bool, careful: bool)
      returns (k: System, done: nat, ok: bool, ghost trace: seq<View>)
    requires values.Keys == flags.Keys && values.Keys !! fifos.Keys
    requires forall o :: o in values ==> values[o] <= SEM_VALUE_MAX
    ensures (ok <==> k.Valid()) && (ok ==> done == |steps|) && done <= |steps|
    ensures |trace| == done + 1 && trace[done] == Now(k)
    ensures forall i :: 0 <= i < done ==> Taken(trace[i], trace[i + 1], steps[i], strict, careful, idle)
    ensures careful ==> ok
    ensures ok && strict && (forall m :: m in fifos ==> !fifos[m]) ==> k.Disciplined()
  {
    hide System.Valid, System.Disciplined, StartLists, Taken, Now;
    k := new System(idle, values, flags, fifos);
    StartWaiters(idle, values.Keys + fifos.Keys);
    assert Attended(k);
    done, ok, trace := Run(k, steps, strict, careful, 0, 0);
  }

  /** The most urgent READY thread is the one that runs. */
  method SwitchTo(k: System, t: Tid)
    requires k.Valid() && k.lockNest == 0 && t in k.thr && k.thr[t].stat == READY
    requires forall u :: u in k.thr && u != t && k.thr[u].stat == READY ==> k.thr[t].prio < k.thr[u].prio
    modifies k`current
    ensures k.Valid() && k.current == t
  {
    hide Scheduled, ObjectsFit, CallsFit, SuppliesFit, Top, System.OwnerRuns;
    k.Schedule();
    k.TopIsMostUrgent(t);
  }

  /** Thread 1, more urgent than the idle thread 0, runs. */
  method Boot(values: map<Oid, nat>, flags: map<Oid, bool>, fifos: map<Oid, bool>) returns (k: System)
    requires values.Keys == flags.Keys && values.Keys !! fifos.Keys
    requires forall o :: o in values ==> values[o] <= SEM_VALUE_MAX
    ensures fresh(k) && k.Valid() && k.current == 1 && k.idle == 0 && k.lockNest == 0 && k.pend == map[]
    ensures k.thr.Keys == {0, 1} && k.thr[1].stat == READY && k.thr[1].prio == 10 && k.thr[0].stat == READY &&
      k.thr[0].prio == 31
    ensures k.sems == StartSems(values, flags) && k.mutexes == StartMutexes(fifos) && k.forced == {}
  {
    hide System.Valid, System.Disciplined, StartLists, StartLinks, StartSems, StartMutexes, Mask;
    k := new System(0, values, flags, fifos);
    Add(k, 1, 10);
    SwitchTo(k, 1);
  }

  /** A new thread is READY. */
  method Add(k: System, t: Tid, prio: nat)
    requires k.Valid() && t !in k.thr && prio < PRIORITIES
    modifies k`thr, k`lists, k`link, k`group, k`alarm, k`base
    ensures k.Valid() && t in k.thr && k.thr == old(k.thr)[t := k.thr[t]] && k.thr[t].stat == READY &&
      k.thr[t].prio == prio
  {
    hide Scheduled, ObjectsFit, CallsFit, SuppliesFit, Mask, Moved, Left, Locks.Inherits, Contends;
    k.Init(t, prio, 5);
    var _ := k.Startup(t);
  }

  /** Under a locked scheduler a take of an empty semaphore reports success, and a second one
      leaves the kernel without valid lists. */
  method LockedSemaphores() returns (k: System, r: Outcome)
    ensures r == Done(EOK) && !k.Valid()
  {
    hide Scheduled, ObjectsFit, CallsFit, SuppliesFit, System.Blocks, Locks.Inherits;
    k := Boot(map[0 := 0, 1 := 0], map[0 := false, 1 := false], map[]);
    k.EnterCritical();
    r := SemTakeAtOnce(k, 0, -1);
    k.WhereLinked(1);
    var _ := k.SemTake(1, -1);
  }

  /** Thread 1 owns mutex 7 and runs. */
  method Owned() returns (k: System)
    ensures fresh(k) && k.Valid() && k.current == 1 && k.idle == 0 && k.lockNest == 0 && k.pend == map[] &&
      k.forced == {}
    ensures k.thr.Keys == {0, 1} && k.thr[1].stat == READY && k.thr[1].prio == 10 && k.thr[0].stat == READY &&
      k.thr[0].prio == 31
    ensures k.mutexes.Keys == {7} && k.mutexes[7].owner == By(1)
  {
    hide System.Valid, Locks.Inherits;
    k := Boot(map[], map[], map[7 := false]);
    assert k.mutexes.Keys == {7} && k.mutexes[7].owner == Nobody;
    hide StartMutexes, StartSems;
    TakeFirst(k, 7);
  }

  /** Thread 1 owns mutex 7, and the more urgent thread 2 runs. */
  method OwnedByOther() returns (k: System)
    ensures fresh(k) && k.Valid() && k.current == 2 && k.idle == 0 && k.lockNest == 0 && k.pend == map[] &&
      k.forced == {}
    ensures k.thr.Keys == {0, 1, 2} && k.thr[2].stat == READY && k.thr[2].prio == 5 && k.thr[1].stat == READY &&
      k.thr[1].prio == 10
    ensures k.thr[0].stat == READY && k.thr[0].prio == 31
    ensures k.mutexes.Keys == {7} && k.mutexes[7].owner == By(1)
  {
    hide System.Valid, Locks.Inherits;
    k := Owned();
    Add(k, 2, 5);
    SwitchTo(k, 2);
  }

  /** The running thread takes a mutex that nobody owns. */
  method TakeFirst(k: System, m: Oid)
    requires k.Valid() && k.Outside() && m in k.mutexes && k.mutexes[m].owner == Nobody
    modifies k`thr, k`lists, k`link, k`group, k`alarm, k`mutexes, k`pend
    ensures k.Valid() && k.mutexes.Keys == old(k.mutexes.Keys) && k.mutexes[m].owner == By(k.current)
    ensures k.pend == old(k.pend) && k.thr.Keys == old(k.thr.Keys)
    ensures forall t :: t in k.thr ==> k.thr[t].stat == old(k.thr)[t].stat && k.thr[t].prio == old(k.thr)[t].prio
  {
    hide Scheduled, ObjectsFit, CallsFit, SuppliesFit, Locks.Inherits, Orderly, OnlyOwnerTuned, System.RaisedAndBlocked;
    var _ := k.MutexTake(m, 0);
  }

  /** Under a locked scheduler a take of a mutex that another thread owns reports success. */
  method LockedMutex() returns (k: System, r: Outcome)
    ensures k.Valid() && r == Done(EOK) && 7 in k.mutexes && k.mutexes[7].owner != By(k.current)
  {
    hide Scheduled, ObjectsFit, CallsFit, SuppliesFit, Locks.Inherits;
    k := OwnedByOther();
    k.EnterCritical();
    r := MutexTakeAtOnce(k, 7, -1);
  }

  /** Thread 2 waits for the mutex of thread 1, which runs. */
  method WaitsForOther() returns (k: System)
    ensures fresh(k) && k.Valid() && k.current == 1 && k.idle == 0 && k.lockNest == 0 && k.pend == map[2 := 7] &&
      WaitsFor(k.link, 2, 7) && k.forced == {}
    ensures k.thr.Keys == {0, 1, 2} && k.thr[2].stat == SUSPEND && k.thr[2].prio == 5 && k.thr[1].stat == READY
    ensures k.thr[0].stat == READY && k.thr[0].prio == 31
    ensures k.mutexes.Keys == {7} && k.mutexes[7].owner == By(1)
  {
    hide Scheduled, ObjectsFit, CallsFit, SuppliesFit, Locks.Inherits, Queues, Waiters, OnlyOwnerTuned, Orderly,
      Locks.Raised, System.RaisedAndBlocked;
    k := OwnedByOther();
    assert MustWait(k.sems, k.mutexes, 2, 7);
    ghost var thr, lists := k.thr, k.lists;
    var _ := k.MutexTake(7, -1);
    RaisedFacts(k, thr, lists, 7, 1, k.mutexes[7].fifo, -1);
    SwitchTo(k, 1);
  }

  lemma RaisedFacts(k: System, thr0: Pool, lists0: Table, m: Oid, owner: Tid, fifo: bool, time: int)
    requires k.current in thr0 && owner != k.current && k.RaisedAndBlocked(thr0, lists0, m, owner, fifo, time)
    ensures WaitsFor(k.link, k.current, m) && k.current in k.thr && k.thr[k.current].stat == SUSPEND
    ensures forall t :: t in thr0 && t != k.current ==> t in k.thr && k.thr[t].stat == thr0[t].stat
    ensures forall t :: t in thr0 && t != owner ==> t in k.thr && k.thr[t].prio == thr0[t].prio
    ensures owner in thr0 && owner in k.thr && k.thr[owner].prio <= thr0[owner].prio
  {
    hide Queues, Waiters;
  }

  /** A thread that waits for a mutex and is resumed by its owner reports success, and the
      owner still owns it. */
  method ForcedMutex() returns (k: System, e: Error)
    ensures k.Valid() && k.current == 2 && e == EOK && 7 in k.mutexes && k.mutexes[7].owner == By(1)
  {
    hide System.Valid, Scheduled, Locks.Inherits, Moved, Dropped, Left, SameWaiters, Queues;
    k := WaitsForOther();
    var _ := k.Resume(2);
    k.Sleep(5);
    SwitchTo(k, 2);
    e := k.MutexTakeReturn(7);
  }

  /** A thread that owns a mutex and detaches itself leaves it owned by a closed thread. */
  method Orphaned() returns (k: System)
    ensures fresh(k) && k.Valid() && k.Orphans(1) && k.lockNest == 0 && 7 in k.mutexes && k.mutexes[7].owner == By(1)
  {
    hide Scheduled, ObjectsFit, CallsFit, SuppliesFit, Locks.Inherits, Dropped, Left;
    k := Owned();
    assert OwnsSome(k.mutexes, 1);
    k.Detach(1);
  }

  /** And nobody else ever owns that mutex again, whatever happens then. */
  method OrphanedForever(steps: seq<Step>, strict: bool, careful: bool) returns (k: System, done: nat, ok: bool)
    ensures ok ==> k.Valid() && done == |steps| && 7 in k.mutexes && k.mutexes[7].owner == By(1) && k.Orphans(1)
  {
    hide System.Valid, Scheduled, Locks.Inherits, Top, System.OwnerRuns;
    k := Orphaned();
    k.Schedule();
    assert Forsaken(k, 7, 1);
    ghost var trace;
    done, ok, trace := Run(k, steps, strict, careful, 7, 1);
    assert ok ==> Forsaken(k, 7, 1);
  }
}
