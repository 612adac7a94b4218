/** Runs from the start of the kernel, or of an object, to the states in which a call on an
    event, a mailbox or a message queue does not do what its return code says, or a wake-up is
    lost.
 */
module ObjectCases {

  import opened Cases
  import opened Ids
  import opened Kernel
  import Blocking
  import Event
  import Locks
  import Mailbox
  import MessageQueue
  import Threads
  import Waiting
  import WaitQueue

  /** Thread 1 runs under a locked scheduler. */
  method BootLocked() returns (k: System)
    ensures fresh(k) && Blocking.Runs(k) && k.current == 1 && k.lockNest == 1
  {
    hide Threads.Scheduled, Locks.ObjectsFit, Locks.CallsFit, Locks.SuppliesFit, Locks.Inherits;
    k := Boot(map[], map[], map[]);
    k.EnterCritical();
  }

  /** Under a locked scheduler a thread is told that it received a bit of an empty event. */
  method LockedEvent() returns (e: Event.EventObject, r: Event.Outcome)
    ensures r == Event.Done(EOK, 1) && e.events == 0 && !e.Valid()
  {
    hide Blocking.Runs, System.Valid, Event.AllWait, Event.CallsFit;
    var k := BootLocked();
    e := new Event.EventObject(false, map[1 := 10]);
    NoBit();
    r := Blocking.RecvEvent(k, e, 1, Event.OR, -1);
  }

  lemma NoBit()
    ensures !Event.Satisfied(0, Event.Want(1, Event.OR)) && Event.IsOr(Event.OR)
  {
  }

  /** Under a locked scheduler a receiver is in the wait list of an empty mailbox twice. */
  method LockedMail() returns (b: Mailbox.Box, r: Mailbox.Received)
    ensures r.Waits? && !b.Valid()
  {
    hide Blocking.Runs, System.Valid, Waiting.CallsFit, Waiting.OnTime, Mailbox.Contents;
    var k := BootLocked();
    b := new Mailbox.Box(1, map[1 := 10], false, 0, 0);
    r := Blocking.RecvMail(k, b, -1);
  }

  /** And of an empty message queue. */
  method LockedMessages() returns (q: MessageQueue.Queue, r: MessageQueue.Result)
    ensures r.Waits? && !q.Valid()
  {
    hide Blocking.Runs, System.Valid, Waiting.CallsFit, Waiting.OnTime, MessageQueue.LinksFit, MessageQueue.Partition,
      MessageQueue.Complete;
    var k := BootLocked();
    q := new MessageQueue.Queue(4, 8, map[1 := 10], false, 0, 0);
    r := Blocking.RecvMessage(k, q, -1);
  }

  /** A receiver that another thread resumes is told that it received a bit of an empty
      event. */
  method ForcedEvent() returns (e: Event.EventObject, error: Error, received: bv32)
    ensures e.Valid() && error == EOK && received == 1 && e.events == 0
  {
    hide Event.AllWait, Event.Satisfied;
    e := new Event.EventObject(false, map[1 := 10]);
    NoBit();
    var r := e.Recv(1, 1, Event.OR, -1);
    WaitQueue.QueuedMembers([], e.waiters, e.prio, false, 1);
    e.Resume(1);
    error, received := e.RecvReturn(1);
  }

  /** Threads 1 and 2 wait for mail. */
  method TwoReceivers() returns (b: Mailbox.Box)
    ensures fresh(b) && fresh(b.pool) && fresh(b.senders) && fresh(b.receivers)
    ensures b.Valid() && b.Kept() && b.Queue() == [] && b.size == 1
    ensures 3 in b.senders.prio && b.senders.calls == map[] && |b.receivers.ring| == 2 && b.receivers.woken == {}
  {
    hide Waiting.CallsFit, Waiting.OnTime, Mailbox.Contents, WaitQueue.Queued, Mailbox.Offsets, WaitQueue.Known;
    b := new Mailbox.Box(1, map[1 := 10, 2 := 10, 3 := 10], false, 0, 0);
    var r, resched := b.Recv(1, -1);
    WaitQueue.QueuedMembers([], b.receivers.ring, b.receivers.prio, false, 1);
    ghost var before := b.receivers.ring;
    r, resched := b.Recv(2, -1);
    WaitQueue.QueuedMembers(before, b.receivers.ring, b.receivers.prio, false, 2);
  }

  /** Two receivers wait, a word is sent, and the receiver woken for it is detached before it
      runs: the word lies in the box, and the other receiver waits on. */
  method LostMail() returns (b: Mailbox.Box)
    ensures b.Valid() && !b.Kept() && b.Queue() == [5] && b.receivers.ring != [] && b.receivers.woken == {}
  {
    hide Waiting.CallsFit, Waiting.OnTime, Mailbox.Contents, Mailbox.Offsets, WaitQueue.Known;
    b := TwoReceivers();
    var t := b.receivers.ring[0];
    b.Bounded();
    var r, resched := b.Send(3, 5, 0);
    b.Detach(t);
    b.Bounded();
  }

  /** Threads 1 and 2 wait for a message, in a queue with one node. */
  method TwoReaders() returns (q: MessageQueue.Queue)
    ensures fresh(q) && fresh(q.next) && fresh(q.data) && fresh(q.senders) && fresh(q.receivers)
    ensures q.Valid() && q.Kept() && q.Pending() == [] && q.msgSize == 4 && q.maxMsgs == 1 && |q.spare| == 1 &&
      q.flight == map[]
    ensures 3 in q.senders.prio && q.senders.calls == map[] && |q.receivers.ring| == 2 && q.receivers.woken == {}
  {
    hide Waiting.CallsFit, Waiting.OnTime, WaitQueue.Queued, WaitQueue.Known;
    hide MessageQueue.LinksFit, MessageQueue.Partition, MessageQueue.Complete, MessageQueue.Messages;
    q := new MessageQueue.Queue(4, 8, map[1 := 10, 2 := 10, 3 := 10], false, 0, 0);
    var r := q.Recv(1, -1);
    WaitQueue.QueuedMembers([], q.receivers.ring, q.receivers.prio, false, 1);
    ghost var before := q.receivers.ring;
    r := q.Recv(2, -1);
    WaitQueue.QueuedMembers(before, q.receivers.ring, q.receivers.prio, false, 2);
  }

  /** The same with a message. */
  method LostMessage() returns (q: MessageQueue.Queue)
    ensures q.Valid() && !q.Kept() && q.Pending() == [[7]] && q.receivers.ring != [] && q.receivers.woken == {}
  {
    hide Waiting.CallsFit, Waiting.OnTime, WaitQueue.Known;
    hide MessageQueue.LinksFit, MessageQueue.Partition, MessageQueue.Complete, MessageQueue.Messages;
    q := TwoReaders();
    var t := q.receivers.ring[0];
    var r := q.Send(3, 1, 0);
    MessageQueue.FlightLeaves(q.queue, q.spare, q.flight, q.maxMsgs, r.n);
    q.Fill(r.n, [7], true);
    var resched := q.LinkLast(r.n);
    q.FreeOrNot();
    q.Detach(t);
  }
}
