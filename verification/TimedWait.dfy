/** A wait list together with the timers of its threads: a timed wait that nobody serves ends
    exactly when its time is over.

    The timer of a thread has the number of the thread. Its timeout function is
    rt_thread_timeout, which touches no timer; what threads and other timeout functions do to
    timers spares those of the threads.
 */
module TimedWait {

  import opened Ids
  import opened Lists
  import opened Waiting
  import opened Words
  import opened WaitQueue
  import Timer

  type Started = seq<int>

  /** The timer of a timed waiter is started and due at the end of its wait; another waiter
      has none. */
  ghost predicate ArmedFor(t: Tid, call: Call, began: map<Tid, int>, started: Started, keys: Timer.Keys) {
    if call.timeout < 0 then t !in started
      else t in began && t in started && t in keys && keys[t].due == began[t] + call.timeout
  }

  ghost predicate Armed(ring: seq<Tid>, calls: map<Tid, Call>, began: map<Tid, int>, started: Started,
                        keys: Timer.Keys) {
    forall t :: t in ring ==> t in calls && ArmedFor(t, calls[t], began, started, keys)
  }

  /** Of the timers of threads only those of waiters are started. */
  ghost predicate OthersOff(ring: seq<Tid>, threads: set<Tid>, started: Started) {
    forall t :: t in threads && t in started ==> t in ring
  }

  /** A timer that a script neither starts nor makes periodic. */
  lemma {:induction false} AfterOff(ops: seq<Timer.Op>, x: int, m: Timer.Mark, now: int)
    requires forall k :: 0 <= k < |ops| && ops[k].id == x ==>
      !ops[k].Start? && (ops[k].SetMode? ==> !ops[k].periodic)
    ensures Timer.After(ops, x, m, now).started ==> m.started
    ensures Timer.After(ops, x, m, now).periodic ==> m.periodic
  {
    if ops != [] { AfterOff(ops[..|ops| - 1], x, m, now); }
  }

  lemma RestMembers(ring: seq<Tid>)
    requires ring != []
    ensures forall x :: x != ring[0] ==> (x in ring[1..] <==> x in ring)
    ensures Distinct(ring) ==> ring[0] !in ring[1..]
  {
  }

  lemma StillScripted(pool: Timer.Timers, pool': Timer.Timers, live: set<int>, touched: set<int>)
    requires Timer.WellScripted(pool, live, touched) && Timer.SameShape(pool, pool')
    requires forall x :: x in pool ==> pool'[x].periodic == pool[x].periodic
    requires forall x :: x in pool ==> pool'[x].initTick == pool[x].initTick || 1 <= pool'[x].initTick < HALF_TICKS
    ensures Timer.WellScripted(pool', live, touched)
  {
  }

  lemma StillQuiet(row: Started, keys: Timer.Keys, row': Started, keys': Timer.Keys, t: int, now: int)
    requires Timer.Expired(row, keys, now) == {} && t in keys' && keys'[t].due > now
    requires forall x :: x in row' ==> x == t || x in row
    requires forall x :: x != t && x in keys' ==> x in keys && keys'[x] == keys[x]
    ensures Timer.Expired(row', keys', now) == {}
  {
    forall x | x in row' && x in keys' && keys'[x].due <= now
      ensures x in Timer.Expired(row, keys, now)
    {
    }
  }

  /** No wait is longer than a timer takes. */
  ghost predicate Short(calls: map<Tid, Call>) {
    forall t :: t in calls ==> calls[t].timeout < HALF_TICKS
  }

  /** The calls that timed out did so when their time was over. */
  ghost predicate Ended(ring: seq<Tid>, calls: map<Tid, Call>, errors: map<Tid, Error>, began: map<Tid, int>,
                        ended: map<Tid, int>) {
    forall t :: t in calls && t !in ring && t in errors && errors[t] == ETIMEOUT ==>
      t in began && t in ended && ended[t] == began[t] + calls[t].timeout
  }

  /** Only the call of t, which did not time out, is another. */
  lemma EndedBut(ring: seq<Tid>, calls: map<Tid, Call>, errors: map<Tid, Error>, began: map<Tid, int>,
                 ended: map<Tid, int>,
                 ring': seq<Tid>, calls': map<Tid, Call>, errors': map<Tid, Error>, began': map<Tid, int>, t: Tid)
    requires Ended(ring, calls, errors, began, ended)
    requires forall x :: x != t && x in calls' && x !in ring' ==> x !in ring && x in calls && calls'[x] == calls[x]
    requires forall x :: x != t && x in errors' ==> x in errors && errors'[x] == errors[x]
    requires forall x :: x != t && x in began ==> x in began' && began'[x] == began[x]
    requires t in calls' && t in errors' ==> errors'[t] != ETIMEOUT
    ensures Ended(ring', calls', errors', began', ended)
  {
  }

  /** Only t, if it waits now, has a new wait and a new timer. */
  lemma ArmedFrame(ring: seq<Tid>, calls: map<Tid, Call>, began: map<Tid, int>, started: Started, keys: Timer.Keys,
                   ring': seq<Tid>, calls': map<Tid, Call>, began': map<Tid, int>, started': Started,
                   keys': Timer.Keys, t: int)
    requires Armed(ring, calls, began, started, keys)
    requires forall x :: x in ring' && x != t ==> x in ring && (x in calls ==> x in calls' && calls'[x] == calls[x])
    requires forall x :: x in ring' && x != t && x in began ==> x in began' && began'[x] == began[x]
    requires forall x :: x in ring' && x != t ==> (x in started' <==> x in started)
    requires forall x :: x in ring' && x != t && x in started && x in keys ==> x in keys' && keys'[x] == keys[x]
    requires t in ring' ==> t in calls' && ArmedFor(t, calls'[t], began', started', keys')
    ensures Armed(ring', calls', began', started', keys')
  {
  }

  /** What a side holds of its calls. */
  datatype View = View(ring: seq<Tid>, calls: map<Tid, Call>, errors: map<Tid, Error>, deadline: map<Tid, int>,
                       late: set<Tid>, woken: set<Tid>)

  /** The call of x is as before. */
  ghost predicate Spares(v: View, w: View, x: Tid) {
    && (x in v.calls ==> x in w.calls && w.calls[x] == v.calls[x]) && (x in w.ring <==> x in v.ring)
    && (x in v.errors ==> x in w.errors && w.errors[x] == v.errors[x])
    && (x in v.deadline ==> x in w.deadline && w.deadline[x] == v.deadline[x])
    && (x in w.late <==> x in v.late) && (x in w.woken <==> x in v.woken)
  }

  lemma SparesSame(v: View)
    ensures forall x :: Spares(v, v, x)
  {
  }

  lemma SparesOthers(v: View, w: View, t: Tid)
    requires forall x :: x != t ==> (x in w.ring <==> x in v.ring)
    requires forall x :: x != t ==> (x in v.calls ==> x in w.calls && w.calls[x] == v.calls[x])
    requires forall x :: x != t ==> (x in v.errors ==> x in w.errors && w.errors[x] == v.errors[x])
    requires forall x :: x != t ==> (x in v.deadline ==> x in w.deadline && w.deadline[x] == v.deadline[x])
    requires forall x :: x != t ==> (x in w.late <==> x in v.late) && (x in w.woken <==> x in v.woken)
    ensures forall x :: x != t ==> Spares(v, w, x)
  {
  }

  lemma SparesTrans(v: View, m: View, w: View, x: Tid)
    requires Spares(v, m, x) && Spares(m, w, x)
    ensures Spares(v, w, x)
  {
  }

  /** The call of x waits, was woken, or timed out. */
  ghost predicate Pending(v: View, x: Tid) {
    x in v.calls && x in v.deadline && (x in v.ring || x in v.woken || (x in v.errors && v.errors[x] == ETIMEOUT))
  }

  /** If the call of x waits, was woken or timed out, so it does later, with the same
      deadline. */
  ghost predicate Unserved(v: View, w: View, x: Tid) {
    Pending(v, x) ==>
      Pending(w, x) && w.calls[x] == v.calls[x] && w.deadline[x] == v.deadline[x] && (x in w.late <==> x in v.late)
  }

  ghost predicate SameDeadline(v: View, w: View, x: Tid) {
    x in v.deadline ==> x in w.deadline && w.deadline[x] == v.deadline[x]
  }

  /** What a turn leaves of the calls of others. */
  ghost predicate Turned(v: View, w: View, turn: Turn) {
    && (forall x :: !Enters(turn, x) ==> SameDeadline(v, w, x))
    && (forall x :: !Concerns(turn, x) ==> Unserved(v, w, x))
  }

  lemma SparesTurned(v: View, w: View, turn: Turn, t: Tid)
    requires forall x :: x != t ==> Spares(v, w, x)
    requires (Concerns(turn, t) && (Enters(turn, t) || SameDeadline(v, w, t))) ||
      (SameDeadline(v, w, t) && Unserved(v, w, t))
    ensures Turned(v, w, turn)
  {
    forall x | x != t
      ensures SameDeadline(v, w, x) && Unserved(v, w, x)
    {
      assert Spares(v, w, x);
    }
  }

  lemma ClockTurned(v: View, w: View)
    requires w.calls == v.calls && w.deadline == v.deadline && w.late == v.late
    requires forall x :: x in v.ring ==> x in w.ring || (x in w.errors && w.errors[x] == ETIMEOUT)
    requires forall x :: x !in v.ring ==> Spares(v, w, x)
    ensures Turned(v, w, Clock)
  {
    forall x
      ensures SameDeadline(v, w, x) && Unserved(v, w, x)
    {
      if x !in v.ring { assert Spares(v, w, x); }
    }
  }

  lemma SameTurned(v: View, turn: Turn)
    ensures Turned(v, v, turn)
  {
  }

  /** What may happen to a wait list: a tick, a timer set by somebody, the calls of threads
      and what ends their waits. */
  datatype Turn =
    | Clock | Act(op: Timer.Op) | Enter(t: Tid,
      timeout: int) | Again(t: Tid) | Wake | Resume(t: Tid) | Detach(t: Tid) | Leave(t: Tid)

  /** What a turn does to its own thread, if it can be taken; threads are those of the list. */
  ghost predicate Took(v: View, w: View, turn: Turn, threads: set<Tid>) {
    match turn
    case Clock => w.calls == v.calls && forall x :: x in w.ring ==> x in v.ring
    case Act(_) => w == v
    case Enter(t, timeout) =>
      t !in v.calls && t in threads && timeout != 0 && timeout < HALF_TICKS ==>
        t in w.ring && t in w.calls && w.calls[t].timeout == timeout
    case Again(t) =>
      t in v.calls && t !in v.ring && t in threads && t in v.errors && v.errors[t] == EOK ==>
        t in w.late || (w.woken == v.woken - {t} && (t in w.calls <==> t in w.ring))
    case Wake => v.ring != [] ==> w.ring == v.ring[1..] && v.ring[0] in w.woken
    case Resume(t) => t in v.ring ==> w.ring == Without(v.ring, t) && t in w.woken
    case Detach(t) => t in threads ==> w.ring == Without(v.ring, t) && w.calls == v.calls - {t}
    case Leave(t) => t in v.calls && t !in v.ring ==> w.calls == v.calls - {t}
  }

  function Clocks(turns: seq<Turn>): nat {
    if turns == [] then 0 else Clocks(turns[..|turns| - 1]) + if turns[|turns| - 1].Clock? then 1 else 0
  }

  predicate Enters(turn: Turn, t: Tid) {
    turn.Enter? && turn.t == t
  }

  /** The turn is a call of t, or detaches it. */
  predicate Concerns(turn: Turn, t: Tid) {
    (turn.Enter? || turn.Again? || turn.Detach? || turn.Leave?) && turn.t == t
  }

  predicate NoneEnters(turns: seq<Turn>, t: Tid) {
    forall k :: 0 <= k < |turns| ==> !Enters(turns[k], t)
  }

  predicate NoneConcerns(turns: seq<Turn>, t: Tid) {
    forall k :: 0 <= k < |turns| ==> !Concerns(turns[k], t)
  }

  /** What several turns leave. */
  ghost predicate Ran(v: View, w: View, turns: seq<Turn>) {
    && (forall x :: NoneEnters(turns, x) ==> SameDeadline(v, w, x))
    && (forall x :: NoneConcerns(turns, x) ==> Unserved(v, w, x))
  }

  lemma RunNone(v: View)
    ensures Ran(v, v, [])
  {
  }

  lemma RunMore(v: View, m: View, w: View, turns: seq<Turn>, i: nat)
    requires i < |turns| && Ran(v, m, turns[..i]) && Turned(m, w, turns[i])
    ensures Ran(v, w, turns[..i + 1])
    ensures Clocks(turns[..i + 1]) == Clocks(turns[..i]) + if turns[i].Clock? then 1 else 0
  {
    hide Enters, Concerns, Pending;
    var more := turns[..i + 1];
    assert more[..i] == turns[..i] && more[i] == turns[i] && forall k :: 0 <= k < i ==> turns[..i][k] == more[k];
    forall x
      ensures NoneEnters(more, x) ==> SameDeadline(v, w, x)
      ensures NoneConcerns(more, x) ==> Unserved(v, w, x)
    {
      if NoneEnters(more, x) { assert NoneEnters(turns[..i], x) && SameDeadline(v, m, x) && SameDeadline(m, w, x); }
      if NoneConcerns(more, x) { assert NoneConcerns(turns[..i], x) && Unserved(v, m, x) && Unserved(m, w, x); }
    }
  }

  class TimedList {
    const side: Side
    const timers: Timer.TimerList
    ghost const live: set<int>     // timers that others may start
    ghost const touched: set<int>  // timers that others may start, stop or set
    ghost const ids: set<int>      // all timers
    ghost var ended: map<Tid, int>

    ghost predicate Others()
      reads timers
    {
      && touched !! side.prio.Keys && live !! side.prio.Keys && side.prio.Keys <= ids == timers.timers.Keys
      && timers.Valid() && timers.temp == [] && Timer.WellScripted(timers.timers, live, touched)
    }

    ghost predicate Waits()
      reads this, side, timers
    {
      && Others() && side.Valid(timers.now) && Short(side.calls)
      && Armed(side.ring, side.calls, side.began, Timer.Last(timers.rows), timers.keys)
      && OthersOff(side.ring, side.prio.Keys, Timer.Last(timers.rows))
      && Ended(side.ring, side.calls, side.errors, side.began, ended)
    }

    ghost predicate Valid()
      reads this, side, timers
    {
      Waits() && timers.Quiet()
    }

    constructor (side: Side, timers: Timer.TimerList, ghost live: set<int>, ghost touched: set<int>)
      requires side.Valid(timers.now) && side.calls == map[] && side.ring == []
      requires touched !! side.prio.Keys && live !! side.prio.Keys && side.prio.Keys <= timers.timers.Keys
      requires timers.rows != [] && OthersOff([], side.prio.Keys, Timer.Last(timers.rows))
      requires timers.Valid() && timers.temp == [] && timers.Quiet() && Timer.WellScripted(timers.timers, live, touched)
      ensures Valid() && this.side == side && this.timers == timers && this.live == live && this.touched == touched &&
        ids == timers.timers.Keys
    {
      this.side, this.timers, this.live, this.touched := side, timers, live, touched;
      ids, ended := timers.timers.Keys, map[];
    }

    ghost function Now(): View
      reads side
    {
      View(side.ring, side.calls, side.errors, side.deadline, side.late, side.woken)
    }

    // ----- the timer of a thread -----

    /** Started timers other than that of t are as before. */
    ghost predicate Spared(rows0: seq<seq<int>>, keys0: Timer.Keys, t: Tid)
      requires rows0 != [] && timers.rows != []
      reads timers
    {
      && (forall x :: x != t ==> (x in Timer.Last(timers.rows) <==> x in Timer.Last(rows0)))
      && (forall x :: x != t && x in keys0 ==> x in timers.keys && timers.keys[x] == keys0[x])
    }

    /** rt_timer_stop, as rt_thread_suspend and rt_thread_resume call it. */
    method Halt(t: Tid)
      requires Others() && timers.Quiet() && t in side.prio
      modifies timers
      ensures Others() && timers.Quiet() && timers.now == old(timers.now) &&
        Spared(old(timers.rows), old(timers.keys), t) && t !in Timer.Last(timers.rows)
    {
      hide Timer.SkipList, Timer.AllTimed, Timer.AllFlagged, Timer.Started;
      var ok := timers.Stop(t);
      if !ok { timers.FlagRight(t); }
    }

    /** The timer is set to the timeout and started, or not used. */
    method Arm(t: Tid, timeout: int)
      requires Others() && timers.Quiet() && t in side.prio && timeout != 0 && timeout < HALF_TICKS
      modifies timers
      ensures Others() && timers.Quiet() && timers.now == old(timers.now) &&
        Spared(old(timers.rows), old(timers.keys), t)
      ensures t in Timer.Last(timers.rows) <==> timeout > 0
      ensures timeout > 0 ==> t in timers.keys && timers.keys[t].due == timers.now + timeout
    {
      hide Timer.SkipList, Timer.AllTimed, Timer.AllFlagged, Timer.Started, Timer.WellScripted, Timer.Expired;
      Halt(t);
      if timeout > 0 {
        ghost var row, keys, pool := Timer.Last(timers.rows), timers.keys, timers.timers;
        timers.SetTime(t, timeout);
        timers.Start(t);
        StillScripted(pool, timers.timers, live, touched);
        StillQuiet(row, keys, Timer.Last(timers.rows), timers.keys, t, timers.now);
      }
    }

    // ----- the calls -----

    /** A call blocks for the first time. */
    method Enter(t: Tid, timeout: int)
      requires Valid() && t !in side.calls && t in side.prio && timeout != 0 && timeout < HALF_TICKS
      modifies side, timers
      ensures Valid() && timers.now == old(timers.now) && t in side.ring
      ensures t in side.calls && side.calls[t].timeout == timeout && t in side.errors && side.errors[t] == EOK
      ensures t in side.deadline && side.deadline[t] == timers.now + timeout && t !in side.late
      ensures forall x :: x != t ==> Spares(old(Now()), Now(), x)
    {
      hide Timer.SkipList, Timer.AllTimed, Timer.AllFlagged, Timer.Started, Timer.WellScripted, Queued, CallsFit,
        OnTime, Known, Ended, Spares;
      ghost var rows, keys, v := timers.rows, timers.keys, Now();
      side.Enter(t, timeout, timers.tick, timers.now);
      QueuedMembers(v.ring, side.ring, side.prio, side.fifo, t);
      EndedBut(v.ring, v.calls, v.errors, old(side.began), ended, side.ring, side.calls, side.errors, side.began, t);
      Arm(t, timeout);
      SparesOthers(v, Now(), t);
      ArmedFrame(old(side.ring), old(side.calls), old(side.began), Timer.Last(rows), keys,
                 side.ring, side.calls, side.began, Timer.Last(timers.rows), timers.keys, t);
    }

    /** What is left of a wait in time is no more than a timer takes. */
    lemma Calm(t: Tid)
      requires side.Valid(timers.now) && Short(side.calls) && t in side.calls
      ensures side.calls[t].timeout > 0 && t !in side.late ==>
        t in side.deadline && side.deadline[t] - timers.now < HALF_TICKS
      ensures side.calls[t].timeout != 0
    {
    }

    /** A woken call looks again and finds nothing: it gives up, or waits on. Only one that runs
        again too late may be left with more than a timer takes, and fail an assertion. */
    method Again(t: Tid) returns (waits: bool, failed: bool)
      requires Valid() && t in side.calls && t in side.prio && t in side.woken
      modifies side, timers
      ensures forall x :: x != t ==> Spares(old(Now()), Now(), x)
      ensures Valid() && timers.now == old(timers.now) && side.deadline == old(side.deadline)
      ensures failed ==> t in side.late
      ensures !failed ==>
        side.woken == old(side.woken) - {t} && (waits <==> t in side.calls) && (waits <==> t in side.ring)
      ensures !failed && old(side.calls)[t].timeout > 0 && t !in side.late ==>
        t in side.deadline && (waits <==> timers.now < side.deadline[t])
    {
      hide Timer.SkipList, Timer.AllTimed, Timer.AllFlagged, Timer.Started, Timer.WellScripted, Timer.Expired, Queued,
        CallsFit, OnTime, Spares;
      Calm(t);
      ghost var v := Now();
      var timeout := side.Recheck(t, timers.tick, timers.now);
      SparesOthers(v, Now(), t);
      ghost var m := Now();
      waits, failed := timeout != 0, timeout >= HALF_TICKS;
      if failed { return; }
      side.NotInRing(t);
      if waits {
        WaitOn(t, timeout);
        forall x | x != t
          ensures Spares(v, Now(), x)
        {
          SparesTrans(v, m, Now(), x);
        }
      } else {
        side.Leave(t, timers.now);
        SparesOthers(v, Now(), t);
      }
    }

    method WaitOn(t: Tid, timeout: int)
      requires Valid() && t in side.calls && t in side.prio && t in side.woken && timeout != 0 && timeout < HALF_TICKS
      requires (side.calls[t].timeout < 0) == (timeout < 0)
      requires timeout > 0 ==> t in side.deadline && (t !in side.late ==> timers.now + timeout == side.deadline[t])
      modifies side, timers
      ensures Valid() && timers.now == old(timers.now) && side.deadline == old(side.deadline) &&
        side.late == old(side.late)
      ensures side.woken == old(side.woken) - {t} && t in side.calls && t in side.ring
      ensures forall x :: x != t ==> Spares(old(Now()), Now(), x)
    {
      hide Timer.SkipList, Timer.AllTimed, Timer.AllFlagged, Timer.Started, Timer.WellScripted, Queued, CallsFit,
        OnTime, Known, Ended, Spares;
      ghost var rows, keys, v := timers.rows, timers.keys, Now();
      side.Reenter(t, timeout, timers.tick, timers.now);
      QueuedMembers(v.ring, side.ring, side.prio, side.fifo, t);
      EndedBut(v.ring, v.calls, v.errors, old(side.began), ended, side.ring, side.calls, side.errors, side.began, t);
      Arm(t, timeout);
      SparesOthers(v, Now(), t);
      ArmedFrame(old(side.ring), old(side.calls), old(side.began), Timer.Last(rows), keys,
                 side.ring, side.calls, side.began, Timer.Last(timers.rows), timers.keys, t);
    }

    lemma IsWoken(t: Tid)
      requires Valid() && t in side.calls && t !in side.ring && t in side.errors && side.errors[t] == EOK
      ensures t in side.woken
    {
      hide OnTime;
      CallState(side.ring, side.calls, side.errors, side.woken, t);
    }

    /** A waiter has no error. */
    lemma AwaitsOnTime(t: Tid)
      requires side.Valid(timers.now) && t in side.ring
      ensures t in side.calls && t in side.errors && side.errors[t] == EOK && t in side.prio && Distinct(side.ring)
    {
    }

    /** rt_ipc_list_resume. */
    method Wake()
      requires Valid() && side.ring != []
      modifies side, timers
      ensures Valid() && timers.now == old(timers.now) && side.ring == old(side.ring)[1..] &&
        side.calls == old(side.calls)
      ensures old(side.ring)[0] in side.woken && side.deadline == old(side.deadline) && side.late == old(side.late)
      ensures forall x :: x != old(side.ring)[0] ==> Spares(old(Now()), Now(), x)
    {
      hide Timer.SkipList, Timer.AllTimed, Timer.AllFlagged, Timer.Started, Timer.WellScripted, Queued, CallsFit,
        OnTime, Known, Ended, Spares;
      ghost var rows, keys, v := timers.rows, timers.keys, Now();
      var t := side.ring[0];
      AwaitsOnTime(t);
      RestMembers(side.ring);
      side.WakeFirst(timers.now);
      EndedBut(v.ring, v.calls, v.errors, side.began, ended, side.ring, side.calls, side.errors, side.began, t);
      Halt(t);
      SparesOthers(v, Now(), t);
      ArmedFrame(old(side.ring), old(side.calls), old(side.began), Timer.Last(rows), keys,
                 side.ring, side.calls, side.began, Timer.Last(timers.rows), timers.keys, t);
    }

    /** rt_thread_resume from outside. */
    method Resume(t: Tid)
      requires Valid() && t in side.ring
      modifies side, timers
      ensures Valid() && timers.now == old(timers.now) && side.ring == Without(old(side.ring), t) &&
        side.calls == old(side.calls)
      ensures forall x :: x != t ==> Spares(old(Now()), Now(), x)
      ensures t in side.woken && side.deadline == old(side.deadline) && side.late == old(side.late)
    {
      hide Timer.SkipList, Timer.AllTimed, Timer.AllFlagged, Timer.Started, Timer.WellScripted, Queued, CallsFit,
        OnTime, Known, Ended, Spares;
      ghost var rows, keys, v := timers.rows, timers.keys, Now();
      AwaitsOnTime(t);
      side.Resume(t, timers.now);
      EndedBut(v.ring, v.calls, v.errors, side.began, ended, side.ring, side.calls, side.errors, side.began, t);
      Halt(t);
      SparesOthers(v, Now(), t);
      ArmedFrame(old(side.ring), old(side.calls), old(side.began), Timer.Last(rows), keys,
                 side.ring, side.calls, side.began, Timer.Last(timers.rows), timers.keys, t);
    }

    /** rt_thread_detach. */
    method Detach(t: Tid)
      requires Valid() && t in side.prio
      modifies side, timers
      ensures Valid() && timers.now == old(timers.now) && side.ring == Without(old(side.ring), t) &&
        side.calls == old(side.calls) - {t}
      ensures forall x :: x != t ==> Spares(old(Now()), Now(), x)
      ensures side.deadline == old(side.deadline)
    {
      hide Timer.SkipList, Timer.AllTimed, Timer.AllFlagged, Timer.Started, Timer.WellScripted, Queued, CallsFit,
        OnTime, Known, Ended, Spares;
      ghost var rows, keys, v := timers.rows, timers.keys, Now();
      side.Detach(t, timers.now);
      EndedBut(v.ring, v.calls, v.errors, side.began, ended, side.ring, side.calls, side.errors, side.began, t);
      Halt(t);
      SparesOthers(v, Now(), t);
      ArmedFrame(old(side.ring), old(side.calls), old(side.began), Timer.Last(rows), keys,
                 side.ring, side.calls, side.began, Timer.Last(timers.rows), timers.keys, t);
    }

    /** A call that does not wait returns. */
    method Leave(t: Tid)
      requires Valid() && t in side.calls && t !in side.ring
      modifies side`calls, side`woken
      ensures Valid() && side.calls == old(side.calls) - {t}
      ensures forall x :: x != t ==> Spares(old(Now()), Now(), x)
    {
      side.Leave(t, timers.now);
    }

    /** The operation did to each timer what it says. */
    twostate predicate Marked(op: Timer.Op)
      requires old(timers.rows) != [] && timers.rows != []
      reads timers
    {
      Timer.Marked([op], Timer.Last(old(timers.rows)), old(timers.keys), old(timers.timers),
                   Timer.Last(timers.rows), timers.keys, timers.timers, timers.now)
    }

    /** A start, stop or change of another timer by a thread. */
    method Act(op: Timer.Op)
      requires Valid() && Timer.OpsAllowed(timers.timers, [op], live, touched)
      modifies timers
      ensures Valid() && timers.now == old(timers.now) && Marked(op)
    {
      ghost var rows, keys := timers.rows, timers.keys;
      timers.Act(op, live, touched);
      assert forall t :: t in side.ring ==> t !in touched;
    }

    // ----- the clock -----

    /** The tick interrupt. */
    method Clock()
      requires Valid()
      modifies this`ended, side`ring, side`errors, timers
      ensures Valid() && timers.now == old(timers.now) + 1 && side.calls == old(side.calls)
      ensures forall t :: t in old(side.ring) ==> t in side.calls && (t in side.ring <==> !TimedOutNow(t))
      ensures forall t :: t in side.ring ==> t in old(side.ring)
      ensures forall t :: t !in old(side.ring) ==> Spares(old(Now()), Now(), t)
      ensures Turned(old(Now()), Now(), Turn.Clock)
    {
      hide Timer.SkipList, Timer.AllTimed, Timer.AllFlagged, Timer.WellScripted, CallsFit, OnTime, Known, Ended, Spares;
      ghost var v := Now();
      SparesSame(v);
      timers.Advance();
      side.Later(old(timers.now), timers.now);
      while Timer.Last(timers.rows) != []
        invariant timers.now == old(timers.now) + 1 && Checking(old(side.ring)) && side.calls == old(side.calls)
        invariant forall t :: t in side.ring ==> t in old(side.ring)
        invariant forall t :: t !in old(side.ring) ==> Spares(old(Now()), Now(), t)
        decreases Timer.Expired(Timer.Last(timers.rows), timers.keys, timers.now)
      {
        Timer.HeadFirst(timers.rows, timers.keys);
        var head := Timer.Last(timers.rows)[0];
        Timer.MemberTimed(Timer.Last(timers.rows), timers.timers, timers.keys, timers.now, timers.starts, head);
        Timer.DifferenceExpires(timers.now, timers.keys[head].due);
        if Timer.Sub(timers.tick, timers.timers[head].timeoutTick) >= HALF_TICKS { break; }
        ghost var m := Now();
        Round(old(side.ring));
        forall t | t !in old(side.ring)
          ensures Spares(v, Now(), t)
        {
          SparesTrans(v, m, Now(), t);
        }
      }
      Timer.NothingExpired(timers.rows, timers.keys, timers.now);
      ClockTurned(v, Now());
    }

    /** Within the check, of a tick at whose beginning the threads of ring0 waited. */
    ghost predicate Checking(ring0: seq<Tid>)
      reads this, side, timers
    {
      && Waits() && NoneOverdue()
      && (forall t :: t in ring0 ==> t in side.calls && (t in side.ring || TimedOutNow(t)))
    }

    ghost predicate TimedOutNow(t: Tid)
      requires t in side.calls
      reads side, timers`now
    {
      && side.calls[t].timeout >= 0 && t in side.began && side.began[t] + side.calls[t].timeout == timers.now
      && t in side.errors && side.errors[t] == ETIMEOUT
    }

    /** No started timer is overdue. */
    ghost predicate NoneOverdue()
      requires timers.rows != []
      reads timers
    {
      forall x :: x in Timer.Last(timers.rows) && x in timers.keys ==> timers.keys[x].due >= timers.now
    }

    /** The first timer fires: what it does spares the timers of other threads. */
    method Fire(head: int)
      requires Others() && NoneOverdue() && Timer.Last(timers.rows) != []
      requires head == Timer.Last(timers.rows)[0] && head in timers.keys && timers.keys[head].due <= timers.now
      modifies timers
      ensures Others() && NoneOverdue() && timers.now == old(timers.now)
      ensures forall x :: x in side.prio && x in Timer.Last(timers.rows) ==>
        x != head && x in Timer.Last(old(timers.rows))
      ensures forall x :: x != head && x in side.prio && x in Timer.Last(old(timers.rows)) && x in old(timers.keys) ==>
        x in Timer.Last(timers.rows) && x in timers.keys && timers.keys[x] == old(timers.keys)[x]
      ensures Timer.Expired(Timer.Last(timers.rows), timers.keys, timers.now)
            < Timer.Expired(Timer.Last(old(timers.rows)), old(timers.keys), timers.now)
    {
      hide Timer.SkipList, Timer.AllTimed, Timer.AllFlagged, Timer.Started, Timer.WellScripted, Timer.Stranded,
        Timer.Handled;
      ghost var row, keys, pool := Timer.Last(timers.rows), timers.keys, timers.timers;
      timers.FireHead(live, touched);
      HeadOff(head, row, keys, pool);
      Timer.EvolvedExpired(row, keys, pool, Timer.Last(timers.rows), timers.keys, timers.timers, timers.now,
        touched + {head});
      assert head in Timer.Expired(row, keys, timers.now);
    }

    /** The timer of a thread is one-shot, and nobody else starts it. */
    lemma HeadOff(head: int, row: Started, keys: Timer.Keys, pool: Timer.Timers)
      requires timers.rows != [] && head in pool && Timer.WellScripted(pool, live, touched)
      requires live !! side.prio.Keys && touched !! side.prio.Keys
      requires Timer.Round(head, row, keys, pool, Timer.Last(timers.rows), timers.keys, timers.timers, timers.now)
      ensures head in side.prio ==> head !in Timer.Last(timers.rows)
    {
      if head in side.prio {
        var m := Timer.MarkOf(row, keys, pool, head);
        AfterOff(pool[head].script, head, m.(started := false, due := 0, active := m.periodic), timers.now);
      }
      hide Timer.After;
    }

    /** One round of the check, with the timeout function of a thread. */
    method Round(ghost ring0: seq<Tid>)
      requires Checking(ring0) && Timer.Last(timers.rows) != []
      requires Timer.Last(timers.rows)[0] in timers.keys && timers.keys[Timer.Last(timers.rows)[0]].due <= timers.now
      modifies this`ended, side`ring, side`errors, timers
      ensures Checking(ring0) && timers.now == old(timers.now)
      ensures forall t :: t !in old(side.ring) ==> Spares(old(Now()), Now(), t)
      ensures forall t :: t in side.ring ==> t in old(side.ring)
      ensures Timer.Expired(Timer.Last(timers.rows), timers.keys, timers.now)
            < Timer.Expired(Timer.Last(old(timers.rows)), old(timers.keys), timers.now)
    {
      hide Timer.SkipList, Timer.AllTimed, Timer.AllFlagged, Timer.WellScripted, CallsFit, OnTime, Ended;
      ghost var row, keys := Timer.Last(timers.rows), timers.keys;
      var head := Timer.Last(timers.rows)[0];
      Fire(head);
      if head in side.ring { TimeOut(head, row, keys); }
      ArmedFrame(old(side.ring), old(side.calls), old(side.began), row, keys,
                 side.ring, side.calls, side.began, Timer.Last(timers.rows), timers.keys, head);
    }

    /** rt_thread_timeout. */
    method TimeOut(t: Tid, ghost started: Started, ghost keys: Timer.Keys)
      requires side.Valid(timers.now) && Armed(side.ring, side.calls, side.began, started, keys)
      requires t in side.ring && t in started && t in keys && keys[t].due == timers.now
      requires Ended(side.ring, side.calls, side.errors, side.began, ended)
      modifies this`ended, side`ring, side`errors
      ensures side.Valid(timers.now) && Ended(side.ring, side.calls, side.errors, side.began, ended)
      ensures side.ring == Without(old(side.ring), t) && side.errors == old(side.errors)[t := ETIMEOUT]
      ensures t in side.calls && TimedOutNow(t)
    {
      hide CallsFit, OnTime, Known;
      AtDeadline(t, started, keys);
      side.Abort(t, ETIMEOUT, timers.now);
      ended := ended[t := timers.now];
    }

    /** The time of a waiter whose timer has come is over. */
    lemma AtDeadline(t: Tid, started: Started, keys: Timer.Keys)
      requires side.Valid(timers.now) && Armed(side.ring, side.calls, side.began, started, keys)
      requires t in side.ring && t in started && t in keys && keys[t].due == timers.now
      ensures t in side.calls && side.calls[t].timeout > 0 && t in side.deadline &&
        (t in side.late || side.deadline[t] <= timers.now)
      ensures t in side.began && side.began[t] + side.calls[t].timeout == timers.now
    {
    }

    // ----- runs -----

    ghost predicate Allowed(turns: seq<Turn>) {
      forall k :: 0 <= k < |turns| && turns[k].Act? ==>
        forall pool: Timer.Timers :: pool.Keys == ids ==> Timer.OpsAllowed(pool, [turns[k].op], live, touched)
    }

    lemma ActAllowed(turn: Turn)
      requires Valid() && Allowed([turn]) && turn.Act?
      ensures Timer.OpsAllowed(timers.timers, [turn.op], live, touched)
    {
      hide Timer.OpsAllowed;
      assert [turn][0] == turn;
    }

    /** Turns of any kind, in any order. */
    method Run(turns: seq<Turn>) returns (ghost trace: seq<View>)
      requires Valid() && Allowed(turns)
      modifies this, side, timers
      ensures Valid() && timers.now == old(timers.now) + Clocks(turns)
      ensures forall x :: NoneEnters(turns, x) ==> SameDeadline(old(Now()), Now(), x)
      ensures forall x :: NoneConcerns(turns, x) ==> Unserved(old(Now()), Now(), x)
      ensures |trace| == |turns| + 1 && trace[0] == old(Now()) && trace[|turns|] == Now()
      ensures forall i :: 0 <= i < |turns| ==> Took(trace[i], trace[i + 1], turns[i], side.prio.Keys)
    {
      hide Valid, NoneConcerns, NoneEnters, Unserved, SameDeadline, Allowed, Took;
      ghost var v := Now();
      trace := [v];
      RunNone(v);
      for i := 0 to |turns|
        invariant Valid() && timers.now == old(timers.now) + Clocks(turns[..i])
        invariant Ran(v, Now(), turns[..i])
        invariant |trace| == i + 1 && trace[0] == v && trace[i] == Now()
        invariant forall k :: 0 <= k < i ==> Took(trace[k], trace[k + 1], turns[k], side.prio.Keys)
      {
        ghost var m := Now();
        OneAllowed(turns, i);
        Do(turns[i]);
        RunMore(v, m, Now(), turns, i);
        trace := trace + [Now()];
      }
      assert turns[..|turns|] == turns;
    }

    lemma OneAllowed(turns: seq<Turn>, k: nat)
      requires Allowed(turns) && k < |turns|
      ensures Allowed([turns[k]])
    {
      hide Timer.OpsAllowed;
    }

    /** A timed wait until its call goes on, whatever happens to others: the thread was woken
        before its time was over; or it waits, and the time is not over; or it timed out
        exactly as many ticks after the call as its timeout says. */
    method WaitOut(t: Tid, timeout: int, turns: seq<Turn>)
      requires Valid() && t !in side.calls && t in side.prio && 0 < timeout < HALF_TICKS && Allowed(turns) &&
        NoneConcerns(turns, t)
      modifies this, side, timers
      ensures Valid() && t in side.calls && t in side.errors && timers.now == old(timers.now) + Clocks(turns)
      ensures t in side.woken || t in side.ring || (side.errors[t] == ETIMEOUT && t in ended)
      ensures t in side.ring ==> Clocks(turns) < timeout
      ensures t !in side.ring && side.errors[t] == ETIMEOUT ==>
        Clocks(turns) >= timeout && t in ended && ended[t] == old(timers.now) + timeout
    {
      hide NoneConcerns, Spares, SameDeadline, Allowed, Timer.SkipList, Timer.AllTimed, Timer.AllFlagged,
        Timer.WellScripted;
      Enter(t, timeout);
      ghost var m := Now();
      ghost var _ := Run(turns);
      assert Unserved(m, Now(), t);
      InTime(t);
    }

    /** One turn, if it can be taken. */
    method Do(turn: Turn)
      requires Valid() && Allowed([turn])
      modifies this, side, timers
      ensures Valid() && timers.now == old(timers.now) + if turn.Clock? then 1 else 0
      ensures Turned(old(Now()), Now(), turn) && Took(old(Now()), Now(), turn, side.prio.Keys)
      ensures turn.Act? ==> Marked(turn.op)
    {
      hide Valid, Spares, Turned, Timer.OpsAllowed, Timer.Marked;
      ghost var v := Now();
      SameTurned(v, turn);
      match turn
      case Clock =>
        Clock();
      case Act(op) =>
        ActAllowed(turn);
        Act(op);
      case Enter(t, timeout) =>
        if t !in side.calls && t in side.prio && timeout != 0 && timeout < HALF_TICKS {
          Enter(t, timeout);
          SparesTurned(v, Now(), turn, t);
        }
      case Again(t) =>
        if t in side.calls && t !in side.ring && t in side.prio && t in side.errors && side.errors[t] == EOK {
          IsWoken(t);
          var _, _ := Again(t);
          SparesTurned(v, Now(), turn, t);
        }
      case Wake =>
        if side.ring != [] {
          ghost var t := side.ring[0];
          Wake();
          SparesTurned(v, Now(), turn, t);
        }
      case Resume(t) =>
        if t in side.ring {
          Resume(t);
          SparesTurned(v, Now(), turn, t);
        }
      case Detach(t) =>
        if t in side.prio {
          Detach(t);
          SparesTurned(v, Now(), turn, t);
        }
      case Leave(t) =>
        if t in side.calls && t !in side.ring {
          Leave(t);
          SparesTurned(v, Now(), turn, t);
        }
    }

    /** A waiter's time is not over, and a call that timed out did so exactly at its
        deadline. */
    lemma InTime(t: Tid)
      requires Valid() && t in side.calls && side.calls[t].timeout > 0 && t !in side.late
      ensures t in side.deadline
      ensures t in side.ring ==> timers.now < side.deadline[t]
      ensures t !in side.ring && t in side.errors && side.errors[t] == ETIMEOUT ==>
        t in ended && ended[t] == side.deadline[t]
    {
      if t in side.ring {
        assert t !in Timer.Expired(Timer.Last(timers.rows), timers.keys, timers.now);
      }
    }
  }
}
