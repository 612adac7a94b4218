/** One wait list of a mailbox or message queue (ipc.c): threads wait in it, are woken to
    look again, and wait on with the rest of their time.

    Absolute time is ghost: the code only sees it modulo 2^32.
 */
module Waiting {

  import opened Ids
  import opened Lists
  import opened WaitQueue
  import opened Words

  /** The local variables timeout and tick_delta of a call that blocked. */
  datatype Call = Call(timeout: int, start: nat)

  /** timeout -= tick_delta on 32-bit words, then clipped at 0. */
  function Remains(timeout: int, delta: nat): int {
    var word := (timeout - delta) % WORD;
    var signed := if word < HALF_WORD then word else word - WORD;
    if signed < 0 then 0 else signed
  }

  /** What a call that runs again has left; a negative time never ends. */
  function TimeLeft(c: Call, tick: nat): int {
    if c.timeout > 0 then Remains(c.timeout, (tick - c.start) % WORD) else c.timeout
  }

  /** Unless it runs again too late, a call has left what remains until its deadline. */
  lemma LeftInTime(c: Call, tick: nat, began: int, now: int)
    requires 0 < c.timeout < HALF_WORD && c.start == began % WORD && tick == now % WORD && began <= now
    ensures 0 <= TimeLeft(c, tick) < HALF_WORD
    ensures now - began <= c.timeout + HALF_WORD ==>
      TimeLeft(c, tick) == if now < began + c.timeout then began + c.timeout - now else 0
  {
    WordDifference(now, began);
    RemainsExact(c.timeout, (tick - c.start) % WORD);
  }

  lemma Doubled(ring: seq<Tid>, k: nat, t: Tid)
    requires k <= |ring| && t in ring
    ensures !Distinct(Splice(ring, k, t))
  {
    var i :| 0 <= i < |ring| && ring[i] == t;
    var s := Splice(ring, k, t);
    assert s[k] == t && s[if i < k then i else i + 1] == t;
  }

  /** What is left of a timeout is computed rightly, from the elapsed ticks modulo 2^32,
      exactly when these lie at most 2^31 ticks behind the timeout; for less than 2^32
      elapsed ticks that is when the thread runs again at most 2^31 ticks after it timed
      out. */
  lemma RemainsExact(timeout: int, elapsed: nat)
    requires 0 < timeout < HALF_WORD
    ensures Remains(timeout, elapsed % WORD) == (if elapsed < timeout then timeout - elapsed else 0)
      <==> elapsed % WORD <= timeout + HALF_WORD && (elapsed >= WORD ==> timeout <= elapsed % WORD)
  {
    var delta := elapsed % WORD;
    if delta <= timeout {
      assert (timeout - delta) % WORD == timeout - delta;
    } else {
      assert (timeout - delta) % WORD == timeout - delta + WORD;
    }
  }

  /** Of the calls in progress some wait, some were woken to look again, and the others
      failed. */
  ghost predicate CallsFit(ring: seq<Tid>, calls: map<Tid, Call>, errors: map<Tid, Error>, woken: set<Tid>) {
    && Distinct(ring)
    && (forall t :: t in ring ==> t in calls)
    && (forall t :: t in woken ==> t in calls)
    && (forall t :: t in calls ==> t in errors && (t in ring ==> errors[t] == EOK && t !in woken))
    && (forall t :: t in calls && t !in ring ==> (t in woken <==> errors[t] == EOK))
  }

  /** A timed wait is armed to end at the deadline of its call; a call that timed out is
      past its deadline. Calls that once ran again too late are excepted. */
  ghost predicate OnTime(calls: map<Tid, Call>, errors: map<Tid, Error>, began: map<Tid, int>, deadline: map<Tid, int>,
                         late: set<Tid>, now: int) {
    forall t :: t in calls && calls[t].timeout >= 0 ==>
      && t in began && t in deadline && began[t] <= now
      && 0 < calls[t].timeout < HALF_WORD && calls[t].start == began[t] % WORD
      && (t !in late ==> began[t] + calls[t].timeout == deadline[t])
      && (t !in late && t in errors && errors[t] == ETIMEOUT ==> deadline[t] <= now)
  }

  lemma OnTimeLater(calls: map<Tid, Call>, errors: map<Tid, Error>, began: map<Tid, int>, deadline: map<Tid, int>,
                    late: set<Tid>, now: int, later: int)
    requires OnTime(calls, errors, began, deadline, late, now) && now <= later
    ensures OnTime(calls, errors, began, deadline, late, later)
  {
  }

  lemma EnterFits(ring: seq<Tid>, calls: map<Tid, Call>, errors: map<Tid, Error>, woken: set<Tid>, t: Tid, c: Call,
                  k: nat)
    requires CallsFit(ring, calls, errors, woken) && k <= |ring| && t !in ring
    ensures CallsFit(Splice(ring, k, t), calls[t := c], errors[t := EOK], woken - {t})
  {
    SpliceDistinct(ring, k, t);
    SpliceMembers(ring, k, t);
    hide Splice, Distinct;
  }

  /** t starts to wait now, until d if its time is bounded. */
  lemma OnTimeWaits(calls: map<Tid, Call>, errors: map<Tid, Error>, began: map<Tid, int>, deadline: map<Tid, int>,
                    late: set<Tid>, now: int,
                    t: Tid, c: Call, d: map<Tid, int>, l: set<Tid>)
    requires OnTime(calls, errors, began, deadline, late, now) && c.timeout != 0 && c.timeout < HALF_WORD &&
      c.start == now % WORD
    requires c.timeout > 0 ==> t in d && (t !in l ==> now + c.timeout == d[t])
    requires forall u :: u in deadline && u != t ==> u in d && d[u] == deadline[u]
    requires forall u :: u != t ==> (u in l <==> u in late)
    ensures OnTime(calls[t := c], errors[t := EOK], began[t := now], d, l, now)
  {
  }

  class Side {
    var ring: seq<Tid>
    var calls: map<Tid, Call>
    var errors: map<Tid, Error>
    const prio: Priorities
    const fifo: bool
    ghost var woken: set<Tid>           // woken to look again, and not yet run
    ghost var began: map<Tid, int>      // when the present wait of a call began
    ghost var deadline: map<Tid, int>   // when a timed call is to give up
    ghost var late: set<Tid>            // timed calls that ran again too late

    ghost predicate Valid(now: int)
      reads this
    {
      CallsFit(ring, calls, errors, woken) && OnTime(calls, errors, began, deadline, late, now) && Known(ring, prio)
    }

    constructor (prio: Priorities, fifo: bool)
      ensures ring == [] && calls == map[] && woken == {} && this.prio == prio && this.fifo == fifo
      ensures errors == map[] && began == map[] && deadline == map[] && late == {}
      ensures forall now :: Valid(now)
    {
      ring, calls, errors, woken := [], map[], map[], {};
      began, deadline, late := map[], map[], {};
      this.prio, this.fifo := prio, fifo;
    }

    /** Time passes. */
    lemma Later(now: int, later: int)
      requires Valid(now) && now <= later
      ensures Valid(later)
    {
      OnTimeLater(calls, errors, began, deadline, late, now, later);
    }

    /** A call blocks for the first time. */
    method Enter(t: Tid, timeout: int, tick: nat, ghost now: int)
      requires Valid(now) && t !in calls && t in prio && timeout != 0 && timeout < HALF_WORD && tick == now % WORD
      modifies this
      ensures Valid(now) && woken == old(woken)
      ensures calls == old(calls)[t := Call(timeout, tick)]
      ensures Queued(old(ring), ring, prio, fifo, t)
      ensures deadline == old(deadline)[t := now + timeout] && late == old(late) - {t}
      ensures began == old(began)[t := now] && errors == old(errors)[t := EOK]
    {
      hide IsSlot, CallsFit, Splice, OnTime;
      var k := FindSlot(ring, prio, prio[t], fifo);
      SlotRange(ring, prio, prio[t], fifo, k);
      NotInRing(t);
      EnterFits(ring, calls, errors, woken, t, Call(timeout, tick), k);
      OnTimeWaits(calls, errors, began, deadline, late, now, t, Call(timeout, tick), deadline[t := now + timeout],
        late - {t});
      SpliceMembers(ring, k, t);
      errors := errors[t := EOK];
      ring := Splice(ring, k, t);
      calls := calls[t := Call(timeout, tick)];
      began := began[t := now];
      deadline := deadline[t := now + timeout];
      late := late - {t};
      NotWoken(t);
    }

    lemma NotInRing(t: Tid)
      requires CallsFit(ring, calls, errors, woken) && (t !in calls || t in woken)
      ensures t !in ring && (t !in calls ==> t !in woken)
    {
    }

    lemma NotWoken(t: Tid)
      ensures t !in woken ==> woken - {t} == woken
    {
    }

    /** What is left of the time of a call that runs again. */
    method Recheck(t: Tid, tick: nat, ghost now: int) returns (timeout: int)
      requires Valid(now) && t in woken && t in calls && tick == now % WORD
      modifies this`late
      ensures Valid(now)
      ensures calls[t].timeout < 0 ==> timeout == calls[t].timeout
      ensures calls[t].timeout >= 0 ==> t in deadline && t in began && 0 <= timeout < HALF_WORD
      ensures calls[t].timeout >= 0 && t !in late ==> timeout == if now < deadline[t] then deadline[t] - now else 0
      ensures t in late <==>
        t in old(late) || (calls[t].timeout >= 0 && t in began && now - began[t] > calls[t].timeout + HALF_WORD)
      ensures forall u :: u != t ==> (u in late <==> u in old(late))
    {
      timeout := calls[t].timeout;
      if timeout > 0 {
        ghost var elapsed := now - began[t];
        if elapsed > timeout + HALF_WORD {
          late := late + {t};
        }
        LeftInTime(calls[t], tick, began[t], now);
        hide TimeLeft;
        timeout := TimeLeft(calls[t], tick);
      }
    }

    /** A woken call waits on, with what is left of its time. */
    method Reenter(t: Tid, timeout: int, tick: nat, ghost now: int)
      requires Valid(now) && t in woken && t in calls && t in prio && timeout != 0 && timeout < HALF_WORD &&
        tick == now % WORD
      requires (calls[t].timeout < 0) == (timeout < 0)
      requires timeout > 0 ==> t in deadline && (t !in late ==> now + timeout == deadline[t])
      modifies this
      ensures Valid(now) && woken == old(woken) - {t}
      ensures calls == old(calls)[t := Call(timeout, tick)]
      ensures Queued(old(ring), ring, prio, fifo, t)
      ensures deadline == old(deadline) && late == old(late)
      ensures began == old(began)[t := now] && errors == old(errors)[t := EOK]
    {
      hide IsSlot, CallsFit, Splice, OnTime;
      OnTimeWaits(calls, errors, began, deadline, late, now, t, Call(timeout, tick), deadline, late);
      var k := FindSlot(ring, prio, prio[t], fifo);
      SlotRange(ring, prio, prio[t], fifo, k);
      NotInRing(t);
      EnterFits(ring, calls, errors, woken, t, Call(timeout, tick), k);
      SpliceMembers(ring, k, t);
      errors := errors[t := EOK];
      ring := Splice(ring, k, t);
      calls := calls[t := Call(timeout, tick)];
      began := began[t := now];
      woken := woken - {t};
    }

    /** A call goes on although its thread is in the wait list still, because the scheduler is
        locked: it ends, served or out of time, and leaves a waiter behind that is in no call,
        or links its node in once more. */
    method GoOn(t: Tid, served: bool, tick: nat, ghost now: int) returns (waits: bool)
      requires Valid(now) && t in ring && t in calls && t in prio && tick == now % WORD
      modifies this`ring, this`calls
      ensures !Valid(now)
      ensures waits <==> !served && TimeLeft(old(calls)[t], tick) != 0
      ensures !waits ==> ring == old(ring) && calls == old(calls) - {t}
      ensures waits ==> calls == old(calls)[t := Call(TimeLeft(old(calls)[t], tick), tick)]
      ensures waits ==> Queued(old(ring), ring, prio, fifo, t)
    {
      hide OnTime;
      var timeout := TimeLeft(calls[t], tick);
      waits := !served && timeout != 0;
      if waits {
        hide IsSlot, Splice;
        var k := FindSlot(ring, prio, prio[t], fifo);
        SlotRange(ring, prio, prio[t], fifo, k);
        Doubled(ring, k, t);
        ring := Splice(ring, k, t);
        calls := calls[t := Call(timeout, tick)];
      } else {
        calls := calls - {t};
      }
    }

    /** rt_ipc_list_resume. */
    method WakeFirst(ghost now: int)
      requires Valid(now) && ring != []
      modifies this`ring, this`woken
      ensures Valid(now) && ring == old(ring)[1..] && woken == old(woken) + {old(ring)[0]} &&
        |woken| == |old(woken)| + 1
    {
      woken := woken + {ring[0]};
      ring := ring[1..];
    }

    /** A waiter is woken with an error: its timer expired, or the object is reset. */
    method Abort(t: Tid, e: Error, ghost now: int)
      requires Valid(now) && t in ring && e != EOK
      requires e == ETIMEOUT ==>
        t in calls && calls[t].timeout > 0 && t in deadline && (t in late || deadline[t] <= now)
      modifies this`ring, this`errors
      ensures Valid(now) && ring == Without(old(ring), t) && |ring| < |old(ring)| && errors == old(errors)[t := e]
    {
      WithoutDistinct(ring, t);
      ring := Without(ring, t);
      errors := errors[t := e];
    }

    /** rt_thread_resume from outside: a waiter looks again before anybody woke it for an
        item. */
    method Resume(t: Tid, ghost now: int)
      requires Valid(now) && t in ring
      modifies this`ring, this`woken
      ensures Valid(now) && ring == Without(old(ring), t) && woken == old(woken) + {t}
      ensures |woken| == |old(woken)| + 1 && |ring| < |old(ring)|
    {
      WithoutDistinct(ring, t);
      ring := Without(ring, t);
      woken := woken + {t};
    }

    /** rt_thread_detach: the thread leaves the list, and its call never returns. */
    method Detach(t: Tid, ghost now: int)
      requires Valid(now)
      modifies this`ring, this`calls, this`woken
      ensures Valid(now) && ring == Without(old(ring), t) && calls == old(calls) - {t} && woken == old(woken) - {t}
    {
      WithoutDistinct(ring, t);
      ring := Without(ring, t);
      calls := calls - {t};
      woken := woken - {t};
    }

    /** A call that does not wait returns. */
    method Leave(t: Tid, ghost now: int)
      requires Valid(now) && t in calls && t !in ring
      modifies this`calls, this`woken
      ensures Valid(now) && calls == old(calls) - {t} && woken == old(woken) - {t}
    {
      calls := calls - {t};
      woken := woken - {t};
    }

    /** rt_ipc_list_resume_all. */
    method AbortAll(ghost now: int)
      requires Valid(now)
      modifies this`ring, this`errors
      ensures Valid(now) && ring == []
      ensures forall t :: t in old(ring) ==> t in errors && errors[t] == ERROR
      ensures forall t :: t in old(errors) && t !in old(ring) ==> t in errors && errors[t] == old(errors)[t]
    {
      hide CallsFit, OnTime, Known;
      while ring != []
        invariant Valid(now)
        invariant forall t :: t in ring ==> t in old(ring)
        invariant forall t :: t in old(ring) && t !in ring ==> t in errors && errors[t] == ERROR
        invariant forall t :: t in old(errors) && t !in old(ring) ==> t in errors && errors[t] == old(errors)[t]
        decreases |ring|
      {
        Abort(ring[0], ERROR, now);
      }
    }
  }

  lemma WordDifference(now: int, began: int)
    requires began <= now
    ensures (now % WORD - began % WORD) % WORD == (now - began) % WORD
  {
  }

  /** No wake-up is lost: while threads wait, every item is spoken for by a thread that
      was woken and has yet to look. */
  ghost predicate Promised(ring: seq<Tid>, items: int, woken: set<Tid>) {
    ring != [] ==> items <= |woken|
  }

  /** Nobody is in a call on the side. */
  ghost predicate Idle(side: Side, prio: Priorities, fifo: bool)
    reads side
  {
    side.ring == [] && side.calls == map[] && side.woken == {} && side.prio == prio && side.fifo == fifo
  }

  /** A woken call of t that finds nothing waits on exactly while its time is not over, for ever
      or for what is left of it; which calls run again too late to tell is stated too. */
  ghost predicate LooksAgain(waits: bool, t: Tid, calls0: map<Tid, Call>, calls: map<Tid, Call>,
                             deadline: map<Tid, int>, began: map<Tid, int>, late0: set<Tid>, late: set<Tid>, tick: nat,
                             now: int)
    requires t in calls0
  {
    var c := calls0[t];
    && (t in late <==> t in late0 || (c.timeout >= 0 && t in began && now - began[t] > c.timeout + HALF_WORD))
    && (c.timeout < 0 ==> waits)
    && (c.timeout >= 0 && t !in late ==> t in deadline && (waits <==> now < deadline[t]))
    && (waits ==> t in calls && calls[t].start == tick && calls == calls0[t := calls[t]])
    && (waits && c.timeout < 0 ==> t in calls && calls[t].timeout == c.timeout)
    && (waits && c.timeout >= 0 && t !in late ==> t in calls && t in deadline && calls[t].timeout == deadline[t] - now)
  }

  /** Detaching t takes a wake-up with it: t was woken, others wait, and every thread that
      was woken is needed. */
  ghost predicate LosesWake(ring: seq<Tid>, items: int, woken: set<Tid>, t: Tid) {
    t in woken && ring != [] && items == |woken|
  }

  /** A promise survives detaching t exactly when t takes no wake-up with it. */
  lemma PromiseDetached(ring: seq<Tid>, items: int, woken: set<Tid>, t: Tid)
    requires Promised(ring, items, woken) && (t in woken ==> t !in ring)
    ensures Promised(Without(ring, t), items, woken - {t}) <==> !LosesWake(ring, items, woken, t)
  {
    if t in woken {
      OneLess(woken, t);
      WithoutAbsent(ring, t);
    } else {
      assert woken - {t} == woken;
    }
  }

  /** The first waiter, if any, was woken. */
  ghost predicate Woken(resched: bool, ring0: seq<Tid>, woken0: set<Tid>, ring: seq<Tid>, woken: set<Tid>) {
    if resched then ring0 != [] && ring == ring0[1..] && woken == woken0 + {ring0[0]}
      else ring == ring0 && woken == woken0
  }

  /** The deadline of t's call is over. */
  ghost predicate GaveUpInTime(side: Side, t: Tid, now: int)
    reads side`deadline
  {
    t in side.deadline && side.deadline[t] <= now
  }

  lemma OneLess(s: set<Tid>, t: Tid)
    requires t in s
    ensures |s - {t}| == |s| - 1
  {
  }

  lemma CallState(ring: seq<Tid>, calls: map<Tid, Call>, errors: map<Tid, Error>, woken: set<Tid>, t: Tid)
    requires CallsFit(ring, calls, errors, woken) && t in calls && t !in ring
    ensures t in errors && (t in woken <==> errors[t] == EOK)
  {
  }

  lemma TimedOut(calls: map<Tid, Call>, errors: map<Tid, Error>, began: map<Tid, int>, deadline: map<Tid, int>,
                 late: set<Tid>, now: int, t: Tid)
    requires OnTime(calls, errors, began, deadline, late, now) && t in calls
    ensures calls[t].timeout != 0
    ensures calls[t].timeout > 0 && t !in late && t in errors && errors[t] == ETIMEOUT ==>
      t in deadline && deadline[t] <= now
  {
  }
}
