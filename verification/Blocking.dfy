/** Calls that may block on an event, a mailbox or a message queue, from their beginning to the
    return of their first rt_schedule and, when the caller goes on at once, beyond.

    The caller is linked into a wait list of the object; in the kernel it is SUSPENDed and in
    no list.
 */
module Blocking {

  import opened Ids
  import opened Kernel
  import opened Waiting
  import opened WaitQueue
  import opened Words
  import Event
  import Locks
  import Mailbox
  import MessageQueue
  import Threads

  /** A thread that runs outside any call. */
  ghost predicate Runs(k: System)
    reads k
  {
    k.Valid() && k.Outside() && k.current != k.idle && k.thr[k.current].stat == Threads.READY
  }

  /** rt_thread_suspend, the start of the thread's timer, and rt_schedule: the thread goes on at
      once if and only if the scheduler is locked. */
  method WaitFor(k: System, timeout: int)
    requires Runs(k) && timeout != 0 && timeout < HALF_TICKS
    modifies k`thr, k`lists, k`link, k`group, k`alarm, k`current
    ensures k.Valid() && k.lockNest == old(k.lockNest)
    ensures k.current == old(k.current) <==> k.lockNest != 0
    ensures var t := old(k.current);
      && k.thr == old(k.thr)[t := old(k.thr)[t].(stat := Threads.SUSPEND)] && t !in k.link
      && k.alarm == if timeout > 0 then old(k.alarm)[t := timeout] else old(k.alarm) - {t}
  {
    hide Threads.Scheduled, Threads.Dropped, Locks.ObjectsFit, Locks.CallsFit, Locks.SuppliesFit, Locks.Inherits,
      Threads.Top;
    if timeout > 0 {
      k.Sleep(timeout);
    } else {
      var _ := k.Suspend(k.current);
    }
    k.Schedule();
  }

  lemma NothingElapsed(timeout: int, tick: nat)
    requires timeout < HALF_WORD
    ensures TimeLeft(Call(timeout, tick), tick) == timeout
  {
  }

  // ----- events -----

  /** rt_event_recv. The call goes on at once with a request that the event does not meet if
      and only if it had to wait and the scheduler was locked; then it succeeds with all bits it
      asked for, and the event is left with a waiter in no call. */
  method RecvEvent(k: System, e: Event.EventObject, bits: bv32, option: bv8, timeout: int) returns (r: Event.Outcome)
    requires Runs(k) && e.Valid() && k.current in e.prio && k.current !in e.calls &&
      (Event.IsAnd(option) || Event.IsOr(option))
    requires timeout < HALF_TICKS
    modifies k`thr, k`lists, k`link, k`group, k`alarm, k`current, e
    ensures k.Valid() && k.lockNest == old(k.lockNest)
    ensures var waits := old(bits != 0 && !Event.Satisfied(e.events, Event.Want(bits, option)) && timeout != 0);
      && (e.Valid() <==> !(waits && k.lockNest != 0))
      && (r.Blocked? <==> waits && k.lockNest == 0) && (k.current != old(k.current) <==> r.Blocked?)
      && (waits && k.lockNest != 0 ==> r == Event.Done(EOK, bits) && e.events == old(e.events))
  {
    hide System.Valid, Event.Satisfied, Event.IsAnd, Event.IsOr, Event.AllWait, Event.CallsFit;
    var t := k.current;
    r := e.Recv(t, bits, option, timeout);
    if r.Blocked? {
      WaitFor(k, timeout);
      if k.current == t {
        var error, received := e.RecvReturn(t);
        r := Event.Done(error, received);
      }
    }
  }

  // ----- mailboxes -----

  /** rt_mb_recv. A call that has to wait links its node in once if the scheduler is not locked,
      and otherwise twice. */
  method RecvMail(k: System, b: Mailbox.Box, timeout: int) returns (r: Mailbox.Received)
    requires Runs(k) && b.Valid() && k.current in b.receivers.prio && k.current !in b.receivers.calls &&
      timeout < HALF_TICKS
    modifies k`thr, k`lists, k`link, k`group, k`alarm, k`current
    modifies b`entry, b`outOffset, b`delivered, b.receivers, b.senders`ring, b.senders`woken
    ensures k.Valid() && k.lockNest == old(k.lockNest)
    ensures var waits := old(b.Queue() == [] && timeout != 0);
      && (b.Valid() <==> !(waits && k.lockNest != 0)) && (r.Waits? <==> waits)
      && (k.current != old(k.current) <==> waits && k.lockNest == 0)
  {
    hide System.Valid, Mailbox.Contents, CallsFit, OnTime, Queued;
    var t := k.current;
    var resched: bool;
    r, resched := b.Recv(t, timeout);
    if r.Waits? {
      WaitFor(k, timeout);
      if k.current == t {
        NothingElapsed(timeout, b.tick);
        r := b.RecvLocked(t);
      }
    }
  }

  /** rt_mb_send_wait. */
  method SendMail(k: System, b: Mailbox.Box, value: int, timeout: int) returns (r: Mailbox.Sent)
    requires Runs(k) && b.Valid() && k.current in b.senders.prio && k.current !in b.senders.calls &&
      timeout < HALF_TICKS
    modifies k`thr, k`lists, k`link, k`group, k`alarm, k`current
    modifies b`entry, b`inOffset, b`accepted, b`values, b.pool, b.senders, b.receivers`ring, b.receivers`woken
    ensures k.Valid() && k.lockNest == old(k.lockNest)
    ensures var waits := old(|b.Queue()| == b.size && timeout != 0);
      && (b.Valid() <==> !(waits && k.lockNest != 0)) && (r.Waits? <==> waits)
      && (k.current != old(k.current) <==> waits && k.lockNest == 0)
  {
    hide System.Valid, Mailbox.Contents, CallsFit, OnTime, Queued;
    var t := k.current;
    b.Bounded();
    var resched: bool;
    r, resched := b.Send(t, value, timeout);
    if r.Waits? {
      WaitFor(k, timeout);
      if k.current == t {
        NothingElapsed(timeout, b.tick);
        r := b.SendLocked(t);
      }
    }
  }

  // ----- message queues -----

  /** rt_mq_recv up to its first region. */
  method RecvMessage(k: System, q: MessageQueue.Queue, timeout: int) returns (r: MessageQueue.Result)
    requires Runs(k) && q.Valid() && k.current in q.receivers.prio && k.current !in q.receivers.calls &&
      timeout < HALF_TICKS
    modifies k`thr, k`lists, k`link, k`group, k`alarm, k`current
    modifies q`head, q`tail, q`entry, q`queue, q`flight, q.receivers
    ensures k.Valid() && k.lockNest == old(k.lockNest)
    ensures var waits := old(q.Pending() == [] && timeout != 0);
      && (q.Valid() <==> !(waits && k.lockNest != 0)) && (r.Waits? <==> waits)
      && (k.current != old(k.current) <==> waits && k.lockNest == 0)
  {
    hide System.Valid, MessageQueue.LinksFit, MessageQueue.Partition, MessageQueue.Complete, MessageQueue.Messages,
      CallsFit, OnTime, Queued;
    var t := k.current;
    r := q.Recv(t, timeout);
    if r.Waits? {
      WaitFor(k, timeout);
      if k.current == t {
        NothingElapsed(timeout, q.tick);
        r := q.RecvLocked(t);
      }
    }
  }

  /** rt_mq_send_wait up to its first region. */
  method SendMessage(k: System, q: MessageQueue.Queue, size: nat, timeout: int) returns (r: MessageQueue.Result)
    requires Runs(k) && q.Valid() && k.current in q.senders.prio && k.current !in q.senders.calls &&
      timeout < HALF_TICKS && size != 0
    modifies k`thr, k`lists, k`link, k`group, k`alarm, k`current
    modifies q`free, q`spare, q`flight, q.senders
    ensures k.Valid() && k.lockNest == old(k.lockNest)
    ensures var waits := old(size <= q.msgSize && q.spare == [] && timeout != 0);
      && (q.Valid() <==> !(waits && k.lockNest != 0)) && (r.Waits? <==> waits)
      && (k.current != old(k.current) <==> waits && k.lockNest == 0)
  {
    hide System.Valid, MessageQueue.LinksFit, MessageQueue.Partition, MessageQueue.Complete, MessageQueue.Messages,
      CallsFit, OnTime, Queued;
    var t := k.current;
    r := q.Send(t, size, timeout);
    if r.Waits? {
      WaitFor(k, timeout);
      if k.current == t {
        NothingElapsed(timeout, q.tick);
        r := q.SendLocked(t);
      }
    }
  }
}
