/** Mailboxes (ipc.c): a bounded queue of words in a ring buffer, with a wait list for
    receivers and one for senders.

    A blocking call is cut where it calls rt_schedule; `...Again` is what runs when the
    thread is scheduled again.
 */
module Mailbox {

  import opened Ids
  import opened Lists
  import opened WaitQueue
  import opened Waiting
  import opened Words

  const MB_ENTRY_MAX: nat := 0xffff

  datatype Received = Received(error: Error, value: int) | Waits

  datatype Sent = Sent(error: Error) | Waits

  // ----- the ring buffer -----

  /** An offset that may have run past the end once. */
  function Wrap(k: nat, size: nat): nat
    requires k < 2 * size || k == size
  {
    if k >= size then k - size else k
  }

  ghost predicate InRange(pool: seq<int>, out: nat, n: nat) {
    n <= |pool| && (out < |pool| || (out == 0 && |pool| == 0))
  }

  /** The n words from offset out on, oldest first. */
  ghost function Contents(pool: seq<int>, out: nat, n: nat): (c: seq<int>)
    requires InRange(pool, out, n)
    ensures |c| == n
  {
    seq(n, i requires 0 <= i < n => pool[Wrap(out + i, |pool|)])
  }

  lemma ContentsAt(pool: seq<int>, out: nat, n: nat, i: nat)
    requires InRange(pool, out, n) && i < n
    ensures Wrap(out + i, |pool|) < |pool| && Contents(pool, out, n)[i] == pool[Wrap(out + i, |pool|)]
  {
    assert Contents(pool, out, n) == seq(n, j requires 0 <= j < n => pool[Wrap(out + j, |pool|)]);
  }

  lemma PutLast(pool: seq<int>, out: nat, n: nat, v: int)
    requires InRange(pool, out, n) && n < |pool|
    ensures var at := Wrap(out + n, |pool|);
      at < |pool| && Contents(pool[at := v], out, n + 1) == Contents(pool, out, n) + [v]
    ensures Wrap(out + n + 1, |pool|) == (if Wrap(out + n, |pool|) + 1 >= |pool| then 0 else Wrap(out + n, |pool|) + 1)
  {
    var after := pool[Wrap(out + n, |pool|) := v];
    forall i | 0 <= i <= n
      ensures Contents(after, out, n + 1)[i] == (Contents(pool, out, n) + [v])[i]
    {
      ContentsAt(after, out, n + 1, i);
      if i < n { ContentsAt(pool, out, n, i); }
    }
  }

  lemma TakeFirst(pool: seq<int>, out: nat, n: nat)
    requires InRange(pool, out, n) && n > 0
    ensures out < |pool| && Contents(pool, out, n)[0] == pool[out]
    ensures var next := if out + 1 >= |pool| then 0 else out + 1;
            InRange(pool, next, n - 1) && [pool[out]] + Contents(pool, next, n - 1) == Contents(pool, out, n)
              && Wrap(next + (n - 1), |pool|) == Wrap(out + n, |pool|)
  {
    var next := if out + 1 >= |pool| then 0 else out + 1;
    ContentsAt(pool, out, n, 0);
    forall i | 1 <= i < n
      ensures Contents(pool, next, n - 1)[i - 1] == Contents(pool, out, n)[i]
    {
      ContentsAt(pool, out, n, i);
      ContentsAt(pool, next, n - 1, i - 1);
    }
  }

  // ----- the object -----

  /** in_offset is out_offset plus entry, modulo size. */
  ghost predicate Offsets(pool: seq<int>, size: nat, entry: nat, inOffset: nat, outOffset: nat) {
    |pool| == size <= MB_ENTRY_MAX && InRange(pool, outOffset, entry) && inOffset == Wrap(outOffset + entry, size)
  }

  lemma PutOffsets(pool: seq<int>, size: nat, entry: nat, inOffset: nat, outOffset: nat, v: int)
    requires Offsets(pool, size, entry, inOffset, outOffset) && entry != size
    ensures inOffset < |pool| && entry < MB_ENTRY_MAX && InRange(pool, outOffset, entry) &&
      InRange(pool[inOffset := v], outOffset, entry + 1)
    ensures Offsets(pool[inOffset := v], size, entry + 1, if inOffset + 1 >= size then 0 else inOffset + 1, outOffset)
    ensures Contents(pool[inOffset := v], outOffset, entry + 1) == Contents(pool, outOffset, entry) + [v]
  {
    hide Contents;
    PutLast(pool, outOffset, entry, v);
  }

  lemma TakeOffsets(pool: seq<int>, size: nat, entry: nat, inOffset: nat, outOffset: nat)
    requires Offsets(pool, size, entry, inOffset, outOffset) && entry > 0
    ensures outOffset < |pool| && InRange(pool, outOffset, entry)
    ensures var next := if outOffset + 1 >= size then 0 else outOffset + 1;
            && Offsets(pool, size, entry - 1, inOffset, next) && InRange(pool, next, entry - 1)
            && [pool[outOffset]] + Contents(pool, next, entry - 1) == Contents(pool, outOffset, entry)
  {
    hide Contents;
    TakeFirst(pool, outOffset, entry);
  }

  class Box {
    const pool: array<int>
    const size: nat
    var entry: nat
    var inOffset: nat
    var outOffset: nat
    const receivers: Side
    const senders: Side
    var values: map<Tid, int>  // the argument of each send in progress
    var tick: nat              // rt_tick_get
    ghost var now: int
    ghost var accepted: seq<int>   // everything put in since the last reset
    ghost var delivered: seq<int>  // everything taken out since

    ghost predicate Valid()
      reads this, pool, receivers, senders
    {
      && receivers != senders && tick == now % WORD && Offsets(pool[..], size, entry, inOffset, outOffset)
      && receivers.Valid(now) && senders.Valid(now)
      && (forall t :: t in senders.calls ==> t in values)
      && accepted == delivered + Contents(pool[..], outOffset, entry)
    }

    /** No wake-up is lost, on either side. */
    ghost predicate Kept()
      reads this, receivers, senders
    {
      Promised(receivers.ring, entry, receivers.woken) && Promised(senders.ring, size - entry, senders.woken)
    }

    /** The words in the box, oldest first. */
    ghost function Queue(): seq<int>
      requires Valid()
      reads this, pool, receivers, senders
    {
      Contents(pool[..], outOffset, entry)
    }

    /** rt_mb_init; the size field has 16 bits. */
    constructor (size: nat, prio: Priorities, fifo: bool, tick: nat, ghost now: int)
      requires tick == now % WORD
      ensures Valid() && Kept() && Queue() == [] && this.size == size % (MB_ENTRY_MAX + 1)
      ensures fresh(pool) && fresh(receivers) && fresh(senders) && values == map[]
      ensures Idle(receivers, prio, fifo) && Idle(senders, prio, fifo)
    {
      this.size := size % (MB_ENTRY_MAX + 1);
      pool := new int[size % (MB_ENTRY_MAX + 1)];
      entry, inOffset, outOffset := 0, 0, 0;
      var r := new Side(prio, fifo);
      var s := new Side(prio, fifo);
      receivers, senders := r, s;
      values := map[];
      this.tick, this.now := tick, now;
      accepted, delivered := [], [];
    }

    /** The part of rt_mb_recv after its loop: there is mail. */
    method Take() returns (value: int, resched: bool)
      requires Valid() && entry > 0
      modifies this`entry, this`outOffset, this`delivered, senders`ring, senders`woken
      ensures Valid() && (old(Kept()) ==> Kept())
      ensures [value] + Queue() == old(Queue()) && delivered == old(delivered) + [value]
      ensures resched <==> old(senders.ring) != []
      ensures Woken(resched, old(senders.ring), old(senders.woken), senders.ring, senders.woken)
    {
      hide CallsFit, OnTime, Known, Contents, Offsets, InRange;
      TakeOffsets(pool[..], size, entry, inOffset, outOffset);
      PoolLength();
      value := pool[outOffset];
      outOffset := if outOffset + 1 >= size then 0 else outOffset + 1;
      entry := entry - 1;
      delivered := delivered + [value];
      resched := senders.ring != [];
      if resched {
        senders.WakeFirst(now);
      }
    }

    lemma PoolLength()
      requires Valid()
      ensures pool.Length == size && |pool[..]| == size && forall i :: 0 <= i < size ==> pool[..][i] == pool[i]
    {
    }

    /** The part of rt_mb_send_wait after its loop: there is room, so entry is below
        RT_MB_ENTRY_MAX and the overflow return is never taken. */
    method Put(value: int) returns (resched: bool)
      requires Valid() && entry != size
      modifies this`entry, this`inOffset, this`accepted, pool, receivers`ring, receivers`woken
      ensures Valid() && (old(Kept()) ==> Kept()) && old(entry) < MB_ENTRY_MAX
      ensures Queue() == old(Queue()) + [value] && accepted == old(accepted) + [value]
      ensures resched <==> old(receivers.ring) != []
      ensures Woken(resched, old(receivers.ring), old(receivers.woken), receivers.ring, receivers.woken)
    {
      hide CallsFit, OnTime, Known, Contents, Offsets, InRange;
      PutOffsets(pool[..], size, entry, inOffset, outOffset, value);
      PoolLength();
      pool[inOffset] := value;
      assert pool[..] == old(pool[..])[inOffset := value];
      inOffset := if inOffset + 1 >= size then 0 else inOffset + 1;
      entry := entry + 1;
      accepted := accepted + [value];
      resched := receivers.ring != [];
      if resched {
        receivers.WakeFirst(now);
      }
    }

    /** The box never holds more than fits. */
    lemma Bounded()
      requires Valid()
      ensures |Queue()| == entry <= size
    {
      hide CallsFit, OnTime, Known;
    }

    /** The tick interrupt. */
    method Tick()
      requires Valid()
      modifies this`tick, this`now
      ensures Valid() && (old(Kept()) ==> Kept()) && now == old(now) + 1 && Queue() == old(Queue())
    {
      hide CallsFit, OnTime, Known, Contents;
      receivers.Later(now, now + 1);
      senders.Later(now, now + 1);
      tick := (tick + 1) % WORD;
      now := now + 1;
    }

    /** rt_mb_recv by the thread t, up to its first rt_schedule. */
    method Recv(t: Tid, timeout: int) returns (r: Received, resched: bool)
      requires Valid() && t in receivers.prio && t !in receivers.calls && timeout < HALF_WORD
      modifies this`entry, this`outOffset, this`delivered, receivers, senders`ring, senders`woken
      ensures Valid() && (old(Kept()) ==> Kept())
      ensures Woken(resched, old(senders.ring), old(senders.woken), senders.ring, senders.woken)
      ensures old(Queue()) != [] ==>
        r == Received(EOK, old(Queue())[0]) && Queue() == old(Queue())[1..] && receivers.calls == old(receivers.calls)
      ensures old(Queue()) == [] ==>
        Queue() == [] && r == if timeout == 0 then Received(ETIMEOUT, 0) else Received.Waits
      ensures receivers.woken == old(receivers.woken) && (!r.Waits? ==> receivers.ring == old(receivers.ring))
      ensures r.Waits? ==>
        t in receivers.ring && Queued(old(receivers.ring), receivers.ring, receivers.prio, receivers.fifo, t)
      ensures r.Waits? ==> receivers.calls == old(receivers.calls)[t := Call(timeout, tick)]
      ensures r.Waits? ==> t in receivers.deadline && receivers.deadline[t] == now + timeout && t !in receivers.late
    {
      hide CallsFit, OnTime, Known, Contents, Queued;
      resched := false;
      if entry == 0 {
        if timeout == 0 { return Received(ETIMEOUT, 0), false; }
        receivers.Enter(t, timeout, tick, now);
        QueuedMembers(old(receivers.ring), receivers.ring, receivers.prio, receivers.fifo, t);
        r := Received.Waits;
      } else {
        var value;
        value, resched := Take();
        r := Received(EOK, value);
      }
    }

    /** rt_mb_recv after an rt_schedule, the thread being READY. */
    method RecvAgain(t: Tid) returns (r: Received, resched: bool)
      requires Valid() && t in receivers.prio && t in receivers.calls && t !in receivers.ring
      modifies this`entry, this`outOffset, this`delivered, receivers, senders`ring, senders`woken
      ensures Valid() && (old(Kept()) ==> Kept())
      ensures Woken(resched, old(senders.ring), old(senders.woken), senders.ring, senders.woken)
      ensures t !in old(receivers.woken) ==>
        t in receivers.errors && r == Received(receivers.errors[t], 0) && r.error != EOK && Queue() == old(Queue())
      ensures t in old(receivers.woken) && old(Queue()) != [] ==>
        r == Received(EOK, old(Queue())[0]) && Queue() == old(Queue())[1..]
      ensures t in old(receivers.woken) && old(Queue()) == [] ==>
        Queue() == [] && (r == Received(ETIMEOUT, 0) || (r.Waits? && t in receivers.ring))
      ensures t in old(receivers.woken) && old(Queue()) == [] ==>
        LooksAgain(r.Waits?, t, old(receivers.calls), receivers.calls, old(receivers.deadline), old(receivers.began),
                   old(receivers.late), receivers.late, tick, now)
      ensures r.Waits? ==>
        receivers.deadline == old(receivers.deadline) &&
        Queued(old(receivers.ring), receivers.ring, receivers.prio, receivers.fifo, t)
      ensures r.Received? && r.error == ETIMEOUT && t !in receivers.late && old(receivers.calls)[t].timeout >= 0 ==>
        GaveUpInTime(receivers, t, now)
      ensures r.Received? ==> receivers.calls == old(receivers.calls) - {t}
    {
      hide CallsFit, OnTime, Known, Contents, Queued;
      resched := false;
      CallState(receivers.ring, receivers.calls, receivers.errors, receivers.woken, t);
      TimedOut(receivers.calls, receivers.errors, receivers.began, receivers.deadline, receivers.late, now, t);
      if receivers.errors[t] != EOK {
        r := Received(receivers.errors[t], 0);
        receivers.Leave(t, now);
        return;
      }
      var timeout := receivers.Recheck(t, tick, now);
      if entry != 0 {
        var value;
        value, resched := Take();
        OneLess(receivers.woken, t);
        receivers.Leave(t, now);
        r := Received(EOK, value);
      } else if timeout == 0 {
        receivers.Leave(t, now);
        r := Received(ETIMEOUT, 0);
      } else {
        receivers.Reenter(t, timeout, tick, now);
        QueuedMembers(old(receivers.ring), receivers.ring, receivers.prio, receivers.fifo, t);
        r := Received.Waits;
      }
    }

    /** rt_mb_recv after an rt_schedule that returned at once, because the scheduler is locked:
        afterwards somebody is in the wait list outside any call, or twice. */
    method RecvLocked(t: Tid) returns (r: Received)
      requires Valid() && t in receivers.prio && t in receivers.ring && t in receivers.calls
      modifies this`entry, this`outOffset, this`delivered, receivers, senders`ring, senders`woken
      ensures !Valid()
      ensures old(Queue()) != [] ==> r == Received(EOK, old(Queue())[0])
      ensures old(Queue()) == [] ==>
        r == if TimeLeft(old(receivers.calls)[t], tick) == 0 then Received(ETIMEOUT, 0) else Received.Waits
    {
      hide CallsFit, OnTime, Known, Contents, Queued;
      r := Received(ETIMEOUT, 0);
      var served := entry != 0;
      if served {
        var value, _ := Take();
        r := Received(EOK, value);
      }
      var waits := receivers.GoOn(t, served, tick, now);
      if waits { r := Received.Waits; }
    }

    /** rt_mb_send_wait by the thread t, up to its first rt_schedule. */
    method Send(t: Tid, value: int, timeout: int) returns (r: Sent, resched: bool)
      requires Valid() && t in senders.prio && t !in senders.calls && timeout < HALF_WORD
      modifies this`entry, this`inOffset, this`accepted, this`values, pool, senders, receivers`ring, receivers`woken
      ensures Valid() && (old(Kept()) ==> Kept())
      ensures Woken(resched, old(receivers.ring), old(receivers.woken), receivers.ring, receivers.woken)
      ensures |old(Queue())| < size ==>
        r == Sent(EOK) && Queue() == old(Queue()) + [value] && senders.calls == old(senders.calls)
      ensures |old(Queue())| == size ==>
        Queue() == old(Queue()) && r == if timeout == 0 then Sent(EFULL) else Sent.Waits
      ensures senders.woken == old(senders.woken) && (!r.Waits? ==> senders.ring == old(senders.ring))
      ensures r.Waits? ==> t in senders.ring && Queued(old(senders.ring), senders.ring, senders.prio, senders.fifo, t)
      ensures r.Waits? ==>
        senders.calls == old(senders.calls)[t := Call(timeout, tick)] && values == old(values)[t := value]
      ensures r.Waits? ==> t in senders.deadline && senders.deadline[t] == now + timeout && t !in senders.late
    {
      hide CallsFit, OnTime, Known, Contents, Queued;
      resched := false;
      PoolLength();
      if entry == size {
        if timeout == 0 { return Sent(EFULL), false; }
        senders.Enter(t, timeout, tick, now);
        values := values[t := value];
        QueuedMembers(old(senders.ring), senders.ring, senders.prio, senders.fifo, t);
        r := Sent.Waits;
      } else {
        resched := Put(value);
        r := Sent(EOK);
      }
    }

    /** rt_mb_send_wait after an rt_schedule, the thread being READY. */
    method SendAgain(t: Tid) returns (r: Sent, resched: bool)
      requires Valid() && t in senders.prio && t in senders.calls && t !in senders.ring
      modifies this`entry, this`inOffset, this`accepted, pool, senders, receivers`ring, receivers`woken
      ensures Valid() && (old(Kept()) ==> Kept())
      ensures Woken(resched, old(receivers.ring), old(receivers.woken), receivers.ring, receivers.woken)
      ensures t !in old(senders.woken) ==>
        t in senders.errors && r == Sent(senders.errors[t]) && r.error != EOK && Queue() == old(Queue())
      ensures t in old(senders.woken) && |old(Queue())| < size ==>
        r == Sent(EOK) && Queue() == old(Queue()) + [old(values)[t]]
      ensures t in old(senders.woken) && |old(Queue())| == size ==>
        Queue() == old(Queue()) && (r == Sent(EFULL) || (r.Waits? && t in senders.ring))
      ensures t in old(senders.woken) && |old(Queue())| == size ==>
        LooksAgain(r.Waits?, t, old(senders.calls), senders.calls, old(senders.deadline), old(senders.began),
                   old(senders.late), senders.late, tick, now)
      ensures r.Waits? ==>
        senders.deadline == old(senders.deadline) &&
        Queued(old(senders.ring), senders.ring, senders.prio, senders.fifo, t)
      ensures r == Sent(EFULL) && t in old(senders.woken) && t !in senders.late ==>
        old(senders.calls)[t].timeout >= 0 ==> GaveUpInTime(senders, t, now)
      ensures r == Sent(ETIMEOUT) && t !in senders.late && old(senders.calls)[t].timeout >= 0 ==>
        GaveUpInTime(senders, t, now)
      ensures r.Sent? ==> senders.calls == old(senders.calls) - {t}
    {
      hide CallsFit, OnTime, Known, Contents, Queued;
      resched := false;
      PoolLength();
      CallState(senders.ring, senders.calls, senders.errors, senders.woken, t);
      TimedOut(senders.calls, senders.errors, senders.began, senders.deadline, senders.late, now, t);
      if senders.errors[t] != EOK {
        r := Sent(senders.errors[t]);
        senders.Leave(t, now);
        return;
      }
      var timeout := senders.Recheck(t, tick, now);
      if entry != size {
        resched := Put(values[t]);
        OneLess(senders.woken, t);
        senders.Leave(t, now);
        r := Sent(EOK);
      } else if timeout == 0 {
        senders.Leave(t, now);
        r := Sent(EFULL);
      } else {
        senders.Reenter(t, timeout, tick, now);
        QueuedMembers(old(senders.ring), senders.ring, senders.prio, senders.fifo, t);
        r := Sent.Waits;
      }
    }

    /** rt_mb_send_wait after an rt_schedule that returned at once, because the scheduler is
        locked. */
    method SendLocked(t: Tid) returns (r: Sent)
      requires Valid() && t in senders.prio && t in senders.ring && t in senders.calls
      modifies this`entry, this`inOffset, this`accepted, pool, senders, receivers`ring, receivers`woken
      ensures !Valid()
      ensures |old(Queue())| < size ==> r == Sent(EOK)
      ensures |old(Queue())| == size ==>
        r == if TimeLeft(old(senders.calls)[t], tick) == 0 then Sent(EFULL) else Sent.Waits
    {
      hide CallsFit, OnTime, Known, Contents, Queued;
      PoolLength();
      r := Sent(EFULL);
      var served := entry != size;
      if served {
        var _ := Put(values[t]);
        r := Sent(EOK);
      }
      var waits := senders.GoOn(t, served, tick, now);
      if waits { r := Sent.Waits; }
    }

    /** rt_thread_timeout for a receiver: its timer was armed to its deadline. */
    method ExpireReceiver(t: Tid)
      requires Valid() && t in receivers.ring && t in receivers.calls && receivers.calls[t].timeout > 0
      requires t in receivers.deadline && (t in receivers.late || receivers.deadline[t] <= now)
      modifies receivers`ring, receivers`errors
      ensures Valid() && (old(Kept()) ==> Kept()) && receivers.ring == Without(old(receivers.ring), t) &&
        receivers.errors == old(receivers.errors)[t := ETIMEOUT]
    {
      hide CallsFit, OnTime, Known, Contents;
      receivers.Abort(t, ETIMEOUT, now);
    }

    /** rt_thread_timeout for a sender. */
    method ExpireSender(t: Tid)
      requires Valid() && t in senders.ring && t in senders.calls && senders.calls[t].timeout > 0
      requires t in senders.deadline && (t in senders.late || senders.deadline[t] <= now)
      modifies senders`ring, senders`errors
      ensures Valid() && (old(Kept()) ==> Kept()) && senders.ring == Without(old(senders.ring), t) &&
        senders.errors == old(senders.errors)[t := ETIMEOUT]
    {
      hide CallsFit, OnTime, Known, Contents;
      senders.Abort(t, ETIMEOUT, now);
    }

    /** rt_thread_resume of a waiting thread of either side: it looks again. */
    method Resume(side: Side, t: Tid)
      requires Valid() && (side == receivers || side == senders) && t in side.ring
      modifies side`ring, side`woken
      ensures Valid() && (old(Kept()) ==> Kept()) && Queue() == old(Queue())
      ensures side.ring == Without(old(side.ring), t) && side.woken == old(side.woken) + {t}
    {
      hide CallsFit, OnTime, Known, Contents;
      side.Resume(t, now);
    }

    /** rt_thread_detach, by any thread: a wake-up is lost if and only if one was on its way to
        t, others wait behind it, and no other woken thread is to spare. */
    method Detach(t: Tid)
      requires Valid()
      modifies receivers`ring, receivers`calls, receivers`woken, senders`ring, senders`calls, senders`woken
      ensures Valid() && Queue() == old(Queue())
      ensures old(Kept()) ==>
        (Kept() <==>
          && !old(LosesWake(receivers.ring, entry, receivers.woken, t))
          && !old(LosesWake(senders.ring, size - entry, senders.woken, t)))
      ensures receivers.ring == Without(old(receivers.ring), t) && receivers.woken == old(receivers.woken) - {t}
      ensures senders.ring == Without(old(senders.ring), t) && senders.woken == old(senders.woken) - {t}
      ensures t !in receivers.calls && t !in senders.calls
    {
      hide OnTime, Known, Contents;
      if Kept() {
        PromiseDetached(receivers.ring, entry, receivers.woken, t);
        PromiseDetached(senders.ring, size - entry, senders.woken, t);
      }
      receivers.Detach(t, now);
      senders.Detach(t, now);
    }

    /** rt_mb_control with RT_IPC_CMD_RESET. */
    method Reset()
      requires Valid()
      modifies this`entry, this`inOffset, this`outOffset, this`accepted, this`delivered, receivers`ring,
        receivers`errors, senders`ring, senders`errors
      ensures Valid() && Kept() && Queue() == [] && receivers.ring == [] && senders.ring == []
      ensures forall t :: t in old(receivers.ring) ==> t in receivers.errors && receivers.errors[t] == ERROR
      ensures forall t :: t in old(senders.ring) ==> t in senders.errors && senders.errors[t] == ERROR
    {
      hide CallsFit, OnTime, Known, Contents;
      receivers.AbortAll(now);
      senders.AbortAll(now);
      entry, inOffset, outOffset := 0, 0, 0;
      accepted, delivered := [], [];
    }
  }
}
