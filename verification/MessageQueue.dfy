/** Message queues (ipc.c): fixed-size nodes that move between a free list, the hands of
    one thread, and the queue.

    Nodes are numbered; the link of a node is the number of the next one or NULL. The
    calls run in several regions with interrupts disabled, and copy between them: a
    node that is in neither list is `in flight`, filled by a sender or drained by a
    receiver.
 */
module MessageQueue {

  import opened Ids
  import opened Lists
  import opened WaitQueue
  import opened Waiting
  import opened Words

  const NULL: int := -1
  const HEADER: nat := 4            // sizeof(struct rt_mq_message)
  const MQ_ENTRY_MAX: nat := 0xffff

  type Bytes = seq<bv8>

  datatype Flight = Filling | Filled(message: Bytes, ended: bool) | Draining(message: Bytes)

  datatype Result = Done(error: Error) | Node(n: nat) | Waits

  // ----- chains of nodes -----

  /** From start on, the links run through the nodes in order and end. */
  ghost predicate Chain(next: seq<int>, start: int, nodes: seq<nat>) {
    && (forall i :: 0 <= i < |nodes| ==> nodes[i] < |next|)
    && (nodes == [] ==> start == NULL)
    && (nodes != [] ==> start == nodes[0] && next[nodes[|nodes| - 1]] == NULL)
    && (forall i, j :: 0 <= i && j == i + 1 && j < |nodes| ==> next[nodes[i]] == nodes[j])
  }

  lemma ChainTail(next: seq<int>, start: int, nodes: seq<nat>)
    requires Chain(next, start, nodes) && nodes != []
    ensures nodes[0] < |next| && Chain(next, next[nodes[0]], nodes[1..])
  {
  }

  lemma ChainFrame(next: seq<int>, start: int, nodes: seq<nat>, n: nat, x: int)
    requires Chain(next, start, nodes) && n < |next| && n !in nodes
    ensures Chain(next[n := x], start, nodes)
  {
  }

  lemma ChainEmpty(next: seq<int>, start: int, nodes: seq<nat>)
    requires Chain(next, start, nodes)
    ensures start == NULL <==> nodes == []
  {
  }

  /** A node linked in front. */
  lemma ChainCons(next: seq<int>, start: int, nodes: seq<nat>, n: nat)
    requires Chain(next, start, nodes) && n < |next| && n !in nodes
    ensures Chain(next[n := start], n, [n] + nodes)
  {
    var all := [n] + nodes;
    ChainFrame(next, start, nodes, n, start);
    forall i, j | 0 <= i && j == i + 1 && j < |all|
      ensures next[n := start][all[i]] == all[j]
    {
      if i > 0 { assert all[i] == nodes[i - 1] && all[j] == nodes[j - 1]; }
    }
  }

  /** A node, its own link cleared, linked behind the last one. */
  lemma ChainSnoc(next: seq<int>, start: int, nodes: seq<nat>, n: nat)
    requires Chain(next, start, nodes) && Distinct(nodes) && n < |next| && n !in nodes && next[n] == NULL
    ensures nodes == [] ==> Chain(next, n, [n])
    ensures nodes != [] ==> Chain(next[nodes[|nodes| - 1] := n], start, nodes + [n])
  {
  }

  // ----- who has which node -----

  /** Every node is in exactly one of the queue, the free list and the air. */
  ghost predicate Partition(max: nat, queue: seq<nat>, free: seq<nat>, flight: map<nat, Flight>) {
    && Distinct(queue) && Distinct(free)
    && (forall n :: n in queue ==> n < max && n !in free && n !in flight)
    && (forall n :: n in free ==> n < max && n !in flight)
    && (forall n :: n in flight ==> n < max)
    && |queue| + |free| + |flight| == max
  }

  /** A message is the start of what the node holds. */
  ghost predicate Holds(cell: Bytes, message: Bytes) {
    message <= cell
  }

  /** Linked nodes and nodes that are filled or drained hold their message whole. */
  ghost predicate Complete(data: seq<Bytes>, size: nat, queue: seq<nat>, flight: map<nat, Flight>,
                           mail: map<nat, Bytes>) {
    && (forall n :: 0 <= n < |data| ==> |data[n]| == size)
    && (forall n :: n in queue ==> n < |data| && n in mail && Holds(data[n], mail[n]))
    && (forall n :: n in flight && !flight[n].Filling? ==> n < |data| && Holds(data[n], flight[n].message))
  }

  /** The messages in the queue, first to leave first. */
  ghost function Messages(queue: seq<nat>, mail: map<nat, Bytes>): (m: seq<Bytes>)
    requires forall n :: n in queue ==> n in mail
    ensures |m| == |queue|
  {
    if queue == [] then [] else [mail[queue[0]]] + Messages(queue[1..], mail)
  }

  lemma {:induction false} MessagesFrame(queue: seq<nat>, mail: map<nat, Bytes>, n: nat, m: Bytes)
    requires (forall k :: k in queue ==> k in mail) && n !in queue
    ensures Messages(queue, mail[n := m]) == Messages(queue, mail)
  {
    if queue != [] { MessagesFrame(queue[1..], mail, n, m); }
  }

  lemma {:induction false} MessagesSnoc(queue: seq<nat>, mail: map<nat, Bytes>, n: nat)
    requires (forall k :: k in queue ==> k in mail) && n in mail
    ensures forall k :: k in queue + [n] ==> k in mail
    ensures Messages(queue + [n], mail) == Messages(queue, mail) + [mail[n]]
  {
    if queue == [] {
      assert [n][1..] == [];
    } else {
      MessagesSnoc(queue[1..], mail, n);
      assert (queue + [n])[1..] == queue[1..] + [n];
    }
  }

  // ----- the links -----

  function Last(nodes: seq<nat>): int {
    if nodes == [] then NULL else nodes[|nodes| - 1]
  }

  /** Head, tail, free pointer and links agree with the two lists; the link of a node
      that is to become the last one is already cleared. */
  ghost predicate LinksFit(next: seq<int>, head: int, tail: int, free: int, queue: seq<nat>,
                           spare: seq<nat>, flight: map<nat, Flight>) {
    && Chain(next, head, queue) && Chain(next, free, spare) && tail == Last(queue)
    && (forall n :: n in flight && flight[n].Filled? && flight[n].ended ==> n < |next| && next[n] == NULL)
  }

  lemma AllocFits(next: seq<int>, head: int, tail: int, free: int, queue: seq<nat>, spare: seq<nat>,
                  flight: map<nat, Flight>, max: nat)
    requires LinksFit(next, head, tail, free, queue, spare, flight) && Partition(max, queue, spare, flight) &&
      spare != []
    ensures free == spare[0] && spare[0] < |next|
    ensures LinksFit(next, head, tail, next[spare[0]], queue, spare[1..], flight[spare[0] := Filling])
    ensures Partition(max, queue, spare[1..], flight[spare[0] := Filling])
  {
    ChainTail(next, free, spare);
    assert spare[0] in spare;
    assert forall n :: n in spare[1..] ==> n in spare;
  }

  lemma FillFits(next: seq<int>, head: int, tail: int, free: int, queue: seq<nat>, spare: seq<nat>,
                 flight: map<nat, Flight>, max: nat,
                 n: nat, m: Bytes, ended: bool)
    requires LinksFit(next, head, tail, free, queue, spare, flight) && Partition(max, queue, spare, flight) &&
      n in flight && n < |next|
    ensures var next' := if ended then next[n := NULL] else next;
            LinksFit(next', head, tail, free, queue, spare, flight[n := Filled(m, ended)])
    ensures Partition(max, queue, spare, flight[n := Filled(m, ended)])
  {
    ChainFrame(next, head, queue, n, NULL);
    ChainFrame(next, free, spare, n, NULL);
    assert flight[n := Filled(m, ended)].Keys == flight.Keys;
  }

  lemma LandedCount(flight: map<nat, Flight>, n: nat)
    requires n in flight
    ensures |flight - {n}| == |flight| - 1
  {
    assert (flight - {n}).Keys == flight.Keys - {n};
  }

  lemma LinkLastFits(next: seq<int>, head: int, tail: int, free: int, queue: seq<nat>,
                     spare: seq<nat>, flight: map<nat, Flight>, max: nat, n: nat)
    requires LinksFit(next, head, tail, free, queue, spare, flight) && Partition(max, queue, spare, flight)
    requires n in flight && flight[n].Filled? && flight[n].ended
    ensures tail != NULL ==> 0 <= tail < |next|
    ensures head == NULL <==> queue == []
    ensures var next' := if tail != NULL then next[tail := n] else next;
            LinksFit(next', if head == NULL then n else head, n, free, queue + [n], spare, flight - {n})
    ensures Partition(max, queue + [n], spare, flight - {n})
  {
    ChainSnoc(next, head, queue, n);
    LandedCount(flight, n);
    if queue != [] {
      var last := queue[|queue| - 1];
      assert last in queue;
      ChainFrame(next, free, spare, last, n);
    }
  }

  lemma LinkFirstFits(next: seq<int>, head: int, tail: int, free: int, queue: seq<nat>,
                      spare: seq<nat>, flight: map<nat, Flight>, max: nat, n: nat)
    requires LinksFit(next, head, tail, free, queue, spare, flight) && Partition(max, queue, spare, flight)
    requires n in flight && n < |next|
    ensures LinksFit(next[n := head], n, if tail == NULL then n else tail, free, [n] + queue, spare, flight - {n})
    ensures Partition(max, [n] + queue, spare, flight - {n})
  {
    ChainCons(next, head, queue, n);
    ChainFrame(next, free, spare, n, head);
    LandedCount(flight, n);
  }

  lemma TakeHeadFits(next: seq<int>, head: int, tail: int, free: int, queue: seq<nat>,
                     spare: seq<nat>, flight: map<nat, Flight>, max: nat, m: Bytes)
    requires LinksFit(next, head, tail, free, queue, spare, flight) && Partition(max, queue, spare, flight) &&
      queue != []
    ensures head == queue[0] && queue[0] < |next|
    ensures LinksFit(next, next[queue[0]], if tail == head then NULL
      else tail, free, queue[1..], spare, flight[queue[0] := Draining(m)])
    ensures Partition(max, queue[1..], spare, flight[queue[0] := Draining(m)])
  {
    ChainTail(next, head, queue);
    assert queue[0] in queue;
    assert forall n :: n in queue[1..] ==> n in queue;
  }

  lemma ReleaseFits(next: seq<int>, head: int, tail: int, free: int, queue: seq<nat>, spare: seq<nat>,
                    flight: map<nat, Flight>, max: nat, n: nat)
    requires LinksFit(next, head, tail, free, queue, spare, flight) && Partition(max, queue, spare, flight)
    requires n in flight && n < |next|
    ensures LinksFit(next[n := free], head, tail, n, queue, [n] + spare, flight - {n})
    ensures Partition(max, queue, [n] + spare, flight - {n})
  {
    ChainCons(next, free, spare, n);
    ChainFrame(next, head, queue, n, free);
    LandedCount(flight, n);
  }

  /** memcpy of a message to the start of a cell. */
  function Store(cell: Bytes, m: Bytes): (r: Bytes)
    requires |m| <= |cell|
    ensures |r| == |cell| && m <= r
  {
    m + cell[|m|..]
  }

  lemma FillComplete(data: seq<Bytes>, size: nat, queue: seq<nat>, spare: seq<nat>, flight: map<nat, Flight>,
                     mail: map<nat, Bytes>, max: nat,
                     n: nat, m: Bytes, ended: bool)
    requires Complete(data, size, queue, flight, mail) && Partition(max, queue, spare, flight) && n in flight &&
      n < |data| && |m| <= size
    ensures Complete(data[n := Store(data[n], m)], size, queue, flight[n := Filled(m, ended)], mail)
  {
  }

  lemma LinkComplete(data: seq<Bytes>, size: nat, queue: seq<nat>, spare: seq<nat>, flight: map<nat, Flight>,
                     mail: map<nat, Bytes>, max: nat, n: nat)
    requires Complete(data, size, queue, flight, mail) && Partition(max, queue, spare, flight) && n in flight &&
      flight[n].Filled?
    ensures Complete(data, size, queue + [n], flight - {n}, mail[n := flight[n].message])
    ensures Complete(data, size, [n] + queue, flight - {n}, mail[n := flight[n].message])
    ensures (forall k :: k in queue ==> k in mail) && n !in queue
  {
  }

  /** Linking node n with message m puts m last, or first. */
  lemma LinkMail(queue: seq<nat>, mail: map<nat, Bytes>, n: nat, m: Bytes)
    requires (forall k :: k in queue ==> k in mail) && n !in queue
    ensures (forall k :: k in queue + [n] ==> k in mail[n := m]) && (forall k :: k in [n] + queue ==> k in mail[n := m])
    ensures Messages(queue + [n], mail[n := m]) == Messages(queue, mail) + [m]
    ensures Messages([n] + queue, mail[n := m]) == [m] + Messages(queue, mail)
  {
    MessagesFrame(queue, mail, n, m);
    MessagesSnoc(queue, mail[n := m], n);
    assert ([n] + queue)[1..] == queue;
  }

  /** The head leaves with its message whole; the other messages stay. */
  lemma HeadMail(queue: seq<nat>, spare: seq<nat>, flight: map<nat, Flight>, max: nat, data: seq<Bytes>, size: nat,
                 mail: map<nat, Bytes>)
    requires Partition(max, queue, spare, flight) && Complete(data, size, queue, flight, mail) && queue != []
    ensures queue[0] !in flight && (forall k :: k in queue ==> k in mail) && (forall k :: k in queue[1..] ==> k in mail)
    ensures queue[0] in mail && Messages(queue, mail) == [mail[queue[0]]] + Messages(queue[1..], mail)
    ensures Complete(data, size, queue[1..], flight[queue[0] := Draining(mail[queue[0]])], mail)
  {
    assert queue[0] in queue;
    assert forall k :: k in queue[1..] ==> k in queue;
  }

  /** The free list that rt_mq_init builds. */
  ghost function Down(k: nat): (d: seq<nat>)
    ensures |d| == k && forall i :: 0 <= i < k ==> d[i] == k - 1 - i
  {
    if k == 0 then [] else [k - 1] + Down(k - 1)
  }

  /** The loop of rt_mq_init. */
  method BuildFree(links: array<int>) returns (list: int)
    modifies links
    ensures Chain(links[..], list, Down(links.Length))
  {
    hide Chain, Down;
    DownEmpty(links[..]);
    list := NULL;
    for temp := 0 to links.Length
      invariant Chain(links[..], list, Down(temp))
    {
      DownStep(temp);
      ChainCons(links[..], list, Down(temp), temp);
      label before:
      links[temp] := list;
      assert links[..] == old@before(links[..])[temp := list];
      list := temp;
    }
  }

  lemma DownEmpty(next: seq<int>)
    ensures Chain(next, NULL, Down(0))
  {
  }

  lemma DownStep(k: nat)
    ensures k !in Down(k) && Down(k + 1) == [k] + Down(k)
  {
  }

  lemma StartFits(next: seq<int>, list: int, max: nat)
    requires Chain(next, list, Down(max))
    ensures LinksFit(next, NULL, NULL, list, [], Down(max), map[]) && Partition(max, [], Down(max), map[])
  {
  }

  // ----- the object -----

  class Queue {
    const msgSize: nat
    const maxMsgs: nat
    const next: array<int>
    const data: array<Bytes>
    var head: int
    var tail: int
    var free: int
    var entry: nat
    const receivers: Side
    const senders: Side
    var tick: nat
    ghost var now: int
    ghost var queue: seq<nat>
    ghost var spare: seq<nat>
    ghost var flight: map<nat, Flight>
    ghost var mail: map<nat, Bytes>

    ghost predicate ListsValid()
      reads this, next, data
    {
      && next.Length == data.Length == maxMsgs <= MQ_ENTRY_MAX && entry == |queue|
      && LinksFit(next[..], head, tail, free, queue, spare, flight) && Partition(maxMsgs, queue, spare, flight)
      && Complete(data[..], msgSize, queue, flight, mail)
    }

    ghost predicate SidesValid()
      reads this`now, this`tick, receivers, senders
    {
      receivers != senders && tick == now % WORD && receivers.Valid(now) && senders.Valid(now)
    }

    ghost predicate Valid()
      reads this, next, data, receivers, senders
    {
      ListsValid() && SidesValid()
    }

    /** No wake-up is lost, on either side. */
    ghost predicate Kept()
      reads this`entry, this`spare, receivers, senders
    {
      Promised(receivers.ring, entry, receivers.woken) && Promised(senders.ring, |spare|, senders.woken)
    }

    /** The messages in the queue, first to leave first. */
    ghost function Pending(): seq<Bytes>
      requires Valid()
      reads this, next, data, receivers, senders
    {
      Messages(queue, mail)
    }

    /** rt_mq_init; the sizes are kept in 16-bit fields. */
    constructor (size: nat, pool: nat, prio: Priorities, fifo: bool, tick: nat, ghost now: int)
      requires size < WORD && tick == now % WORD
      ensures Valid() && Kept() && Pending() == [] && flight == map[] && Idle(receivers, prio, fifo) &&
        Idle(senders, prio, fifo)
      ensures msgSize == AlignUp(size) % (MQ_ENTRY_MAX + 1)
      ensures maxMsgs == pool / (msgSize + HEADER) % (MQ_ENTRY_MAX + 1) && |spare| == maxMsgs
      ensures fresh(next) && fresh(data) && fresh(receivers) && fresh(senders)
    {
      hide Chain, LinksFit, Partition, CallsFit, OnTime, Known, Down;
      var m := AlignUp(size) % (MQ_ENTRY_MAX + 1);
      var count := pool / (m + HEADER) % (MQ_ENTRY_MAX + 1);
      msgSize, maxMsgs := m, count;
      var links := new int[count](i => NULL);
      var cells := new Bytes[count](i => seq(m, j => 0));
      next, data := links, cells;
      var r := new Side(prio, fifo);
      var s := new Side(prio, fifo);
      receivers, senders := r, s;
      this.tick, this.now := tick, now;
      head, tail, entry := NULL, NULL, 0;
      var list := BuildFree(links);
      StartFits(links[..], list, count);
      free := list;
      queue, spare, flight, mail := [], Down(count), map[], map[];
    }

    /** Taking a node from the free list. */
    method Alloc() returns (n: nat)
      requires Valid() && free != NULL
      modifies this`free, this`spare, this`flight
      ensures Valid() && (old(Kept()) ==> Kept()) && Pending() == old(Pending())
      ensures old(spare) != [] && n == old(spare)[0] && spare == old(spare)[1..] && flight == old(flight)[n := Filling]
    {
      hide Chain, Partition, Distinct, Holds, Messages, CallsFit, OnTime, Known;
      ChainEmpty(next[..], free, spare);
      AllocFits(next[..], head, tail, free, queue, spare, flight, maxMsgs);
      n := free;
      free := next[n];
      flight := flight[n := Filling];
      spare := spare[1..];
    }

    /** The copy of the message, between the regions; rt_mq_send_wait also clears the link
        of the node, rt_mq_urgent does not. */
    method Fill(n: nat, message: Bytes, clear: bool)
      requires Valid() && n in flight && n < maxMsgs && flight[n] == Filling && |message| <= msgSize
      modifies next, data, this`flight
      ensures Valid() && (old(Kept()) ==> Kept()) && Pending() == old(Pending()) &&
        flight == old(flight)[n := Filled(message, clear)]
    {
      hide LinksFit, Partition, Complete, Messages, CallsFit, OnTime, Known;
      FillFits(next[..], head, tail, free, queue, spare, flight, maxMsgs, n, message, clear);
      FillComplete(data[..], msgSize, queue, spare, flight, mail, maxMsgs, n, message, clear);
      CellSize(n);
      if clear { next[n] := NULL; }
      assert next[..] == if clear then old(next[..])[n := NULL] else old(next[..]);
      data[n] := Store(data[n], message);
      assert data[..] == old(data[..])[n := Store(old(data[..])[n], message)];
      flight := flight[n := Filled(message, clear)];
    }

    lemma CellSize(n: nat)
      requires Valid() && n < maxMsgs
      ensures |data[n]| == msgSize && data[..][n] == data[n] && |data[..]| == maxMsgs && |next[..]| == maxMsgs
    {
    }

    /** A filled node is linked behind the tail. */
    method Append(n: nat)
      requires ListsValid() && n in flight && flight[n].Filled? && flight[n].ended
      modifies this`head, this`tail, this`entry, this`queue, this`flight, this`mail, next
      ensures ListsValid()
      ensures old(entry) < MQ_ENTRY_MAX && entry == old(entry) + 1
      ensures queue == old(queue) + [n] && flight == old(flight) - {n} && mail == old(mail)[n := old(flight)[n].message]
      ensures n !in old(queue) && forall k :: k in old(queue) ==> k in old(mail)
    {
      hide LinksFit, Partition, Complete, Messages, Last;
      LinkLastFits(next[..], head, tail, free, queue, spare, flight, maxMsgs, n);
      LinkComplete(data[..], msgSize, queue, spare, flight, mail, maxMsgs, n);
      FlightLeaves(queue, spare, flight, maxMsgs, n);
      ghost var before := next[..];
      ghost var tail0 := tail;
      if tail != NULL { next[tail] := n; }
      assert next[..] == if tail0 != NULL then before[tail0 := n] else before;
      tail := n;
      head := if head == NULL then n else head;
      entry := entry + 1;
      queue, mail, flight := queue + [n], mail[n := flight[n].message], flight - {n};
    }

    /** A filled node is linked before the head. */
    method Prepend(n: nat)
      requires ListsValid() && n in flight && flight[n].Filled?
      modifies this`head, this`tail, this`entry, this`queue, this`flight, this`mail, next
      ensures ListsValid()
      ensures old(entry) < MQ_ENTRY_MAX && entry == old(entry) + 1
      ensures queue == [n] + old(queue) && flight == old(flight) - {n} && mail == old(mail)[n := old(flight)[n].message]
      ensures n !in old(queue) && forall k :: k in old(queue) ==> k in old(mail)
    {
      hide LinksFit, Partition, Complete, Messages, Last;
      FlightLeaves(queue, spare, flight, maxMsgs, n);
      LinkFirstFits(next[..], head, tail, free, queue, spare, flight, maxMsgs, n);
      LinkComplete(data[..], msgSize, queue, spare, flight, mail, maxMsgs, n);
      ghost var before := next[..];
      next[n] := head;
      assert next[..] == before[n := head];
      head := n;
      tail := if tail == NULL then n else tail;
      entry := entry + 1;
      queue, mail, flight := [n] + queue, mail[n := flight[n].message], flight - {n};
    }

    /** After a message was linked a receiver, if any waits, is woken. */
    method WakeReceiver() returns (resched: bool)
      requires Valid() && entry > 0
      modifies receivers`ring, receivers`woken
      ensures Valid()
      ensures old(Promised(receivers.ring, entry - 1, receivers.woken)) ==>
        old(Promised(senders.ring, |spare|, senders.woken)) ==> Kept()
      ensures resched <==> old(receivers.ring) != []
      ensures Woken(resched, old(receivers.ring), old(receivers.woken), receivers.ring, receivers.woken)
    {
      hide LinksFit, Partition, Complete, CallsFit, OnTime, Known;
      resched := receivers.ring != [];
      if resched { receivers.WakeFirst(now); }
    }

    /** The second region of rt_mq_send_wait: the filled node goes to the tail, and a
        receiver is woken. entry is below RT_MQ_ENTRY_MAX, so the overflow return is
        never taken. */
    method LinkLast(n: nat) returns (resched: bool)
      requires Valid() && n in flight && flight[n].Filled? && flight[n].ended
      modifies this`head, this`tail, this`entry, this`queue, this`flight, this`mail, next, receivers`ring,
        receivers`woken
      ensures Valid() && (old(Kept()) ==> Kept()) && old(entry) < MQ_ENTRY_MAX
      ensures Pending() == old(Pending()) + [old(flight)[n].message] && flight == old(flight) - {n}
      ensures resched <==> old(receivers.ring) != []
      ensures Woken(resched, old(receivers.ring), old(receivers.woken), receivers.ring, receivers.woken)
    {
      hide LinksFit, Partition, Complete, Messages, CallsFit, OnTime, Known;
      Append(n);
      LinkMail(old(queue), old(mail), n, old(flight)[n].message);
      resched := WakeReceiver();
    }

    /** The second region of rt_mq_urgent: the filled node goes to the head. */
    method LinkFirst(n: nat) returns (resched: bool)
      requires Valid() && n in flight && flight[n].Filled?
      modifies this`head, this`tail, this`entry, this`queue, this`flight, this`mail, next, receivers`ring,
        receivers`woken
      ensures Valid() && (old(Kept()) ==> Kept()) && old(entry) < MQ_ENTRY_MAX
      ensures Pending() == [old(flight)[n].message] + old(Pending()) && flight == old(flight) - {n}
      ensures resched <==> old(receivers.ring) != []
      ensures Woken(resched, old(receivers.ring), old(receivers.woken), receivers.ring, receivers.woken)
    {
      hide LinksFit, Partition, Complete, Messages, CallsFit, OnTime, Known;
      Prepend(n);
      LinkMail(old(queue), old(mail), n, old(flight)[n].message);
      resched := WakeReceiver();
    }

    /** rt_mq_recv after its loop, the first region: the head leaves the queue. */
    method TakeHead() returns (n: nat)
      requires Valid() && entry != 0
      modifies this`head, this`tail, this`entry, this`queue, this`flight
      ensures Valid() && (old(Kept()) ==> Kept())
      ensures n in flight && flight[n].Draining? && flight == old(flight)[n := flight[n]] && n !in old(flight)
      ensures [flight[n].message] + Pending() == old(Pending())
    {
      hide LinksFit, CallsFit, OnTime, Known, Partition, Complete, Messages;
      HeadMail(queue, spare, flight, maxMsgs, data[..], msgSize, mail);
      TakeHeadFits(next[..], head, tail, free, queue, spare, flight, maxMsgs, mail[queue[0]]);
      n := head;
      head := next[n];
      if tail == n { tail := NULL; }
      entry := entry - 1;
      flight := flight[n := Draining(mail[queue[0]])];
      queue := queue[1..];
    }

    /** The copy to the receiver's buffer, between the regions. What arrives starts with
        the message that was sent, as far as the buffer reaches. */
    method CopyOut(n: nat, size: nat) returns (buffer: Bytes)
      requires Valid() && n in flight && flight[n].Draining? && n < maxMsgs
      ensures |buffer| == if size > msgSize then msgSize else size
      ensures var m := flight[n].message; if |m| <= |buffer| then m <= buffer else buffer <= m
    {
      hide LinksFit, Partition, CallsFit, OnTime, Known;
      CellSize(n);
      assert data[..][n] == data[n];
      buffer := data[n][..if size > msgSize then msgSize else size];
    }

    /** A drained node goes back to the free list. */
    method Requeue(n: nat)
      requires Valid() && n in flight && flight[n].Draining?
      modifies this`free, this`spare, this`flight, next
      ensures Valid() && Pending() == old(Pending()) && flight == old(flight) - {n} && spare == [n] + old(spare)
      ensures senders.ring == [] && old(Kept()) ==> Kept()
    {
      hide LinksFit, Messages, CallsFit, OnTime, Known, Distinct;
      FlightLeaves(queue, spare, flight, maxMsgs, n);
      ReleaseFits(next[..], head, tail, free, queue, spare, flight, maxMsgs, n);
      next[n] := free;
      assert next[..] == old(next[..])[n := free];
      free := n;
      spare, flight := [n] + spare, flight - {n};
    }

    /** rt_mq_recv, the last region: the node goes back to the free list, and a sender is
        woken. */
    method Release(n: nat) returns (resched: bool)
      requires Valid() && n in flight && flight[n].Draining?
      modifies this`free, this`spare, this`flight, next, senders`ring, senders`woken
      ensures Valid() && (old(Kept()) ==> Kept()) && Pending() == old(Pending()) && flight == old(flight) - {n} &&
        spare == [n] + old(spare)
      ensures resched <==> old(senders.ring) != []
      ensures Woken(resched, old(senders.ring), old(senders.woken), senders.ring, senders.woken)
    {
      hide LinksFit, Partition, Complete, Messages, CallsFit, OnTime, Known, Distinct;
      Requeue(n);
      resched := senders.ring != [];
      if resched { senders.WakeFirst(now); }
    }

    // ----- the calls -----

    /** The tick interrupt. */
    method Tick()
      requires Valid()
      modifies this`tick, this`now
      ensures Valid() && (old(Kept()) ==> Kept()) && now == old(now) + 1 && Pending() == old(Pending())
    {
      hide LinksFit, Partition, Complete, CallsFit, OnTime, Known;
      receivers.Later(now, now + 1);
      senders.Later(now, now + 1);
      tick := (tick + 1) % WORD;
      now := now + 1;
    }

    lemma FreeOrNot()
      requires Valid()
      ensures free == NULL <==> spare == []
      ensures entry == |Pending()|
    {
      hide Chain, Partition;
      ChainEmpty(next[..], free, spare);
    }

    /** rt_mq_send_wait by the thread t, up to its first rt_schedule or to the end of its
        first region. */
    method Send(t: Tid, size: nat, timeout: int) returns (r: Result)
      requires Valid() && t in senders.prio && t !in senders.calls && timeout < HALF_WORD && size != 0
      modifies this`free, this`spare, this`flight, senders
      ensures Valid() && (old(Kept()) ==> Kept()) && Pending() == old(Pending())
      ensures size > msgSize ==> r == Done(ERROR) && flight == old(flight) && spare == old(spare)
      ensures size <= msgSize && old(spare) != [] ==>
        r == Node(old(spare)[0]) && flight == old(flight)[old(spare)[0] := Filling] &&
        senders.calls == old(senders.calls)
      ensures size <= msgSize && old(spare) == [] ==>
        flight == old(flight) && spare == [] && r == if timeout == 0 then Done(EFULL) else Result.Waits
      ensures senders.woken == old(senders.woken) && (!r.Waits? ==> senders.ring == old(senders.ring))
      ensures r.Waits? ==> t in senders.ring && Queued(old(senders.ring), senders.ring, senders.prio, senders.fifo, t)
      ensures r.Waits? ==> senders.calls == old(senders.calls)[t := Call(timeout, tick)]
      ensures r.Waits? ==> t in senders.deadline && senders.deadline[t] == now + timeout && t !in senders.late
    {
      hide LinksFit, Partition, Complete, CallsFit, OnTime, Known, Queued, Messages;
      FreeOrNot();
      if size > msgSize { return Done(ERROR); }
      if free == NULL {
        if timeout == 0 { return Done(EFULL); }
        senders.Enter(t, timeout, tick, now);
        QueuedMembers(old(senders.ring), senders.ring, senders.prio, senders.fifo, t);
        r := Result.Waits;
      } else {
        var n := Alloc();
        r := Node(n);
      }
    }

    /** rt_mq_send_wait after an rt_schedule, the thread being READY. */
    method SendAgain(t: Tid) returns (r: Result)
      requires Valid() && t in senders.prio && t in senders.calls && t !in senders.ring
      modifies this`free, this`spare, this`flight, senders
      ensures Valid() && (old(Kept()) ==> Kept()) && Pending() == old(Pending())
      ensures t !in old(senders.woken) ==>
        t in senders.errors && r == Done(senders.errors[t]) && r.error != EOK && flight == old(flight)
      ensures t in old(senders.woken) && old(spare) != [] ==>
        r == Node(old(spare)[0]) && flight == old(flight)[old(spare)[0] := Filling]
      ensures t in old(senders.woken) && old(spare) == [] ==>
        flight == old(flight) && spare == [] && (r == Done(EFULL) || (r.Waits? && t in senders.ring))
      ensures t in old(senders.woken) && old(spare) == [] ==>
        LooksAgain(r.Waits?, t, old(senders.calls), senders.calls, old(senders.deadline), old(senders.began),
                   old(senders.late), senders.late, tick, now)
      ensures r.Waits? ==>
        senders.deadline == old(senders.deadline) &&
        Queued(old(senders.ring), senders.ring, senders.prio, senders.fifo, t)
      ensures r == Done(EFULL) && t in old(senders.woken) && t !in senders.late ==>
        old(senders.calls)[t].timeout >= 0 ==> GaveUpInTime(senders, t, now)
      ensures r == Done(ETIMEOUT) && t !in senders.late && old(senders.calls)[t].timeout >= 0 ==>
        GaveUpInTime(senders, t, now)
      ensures !r.Waits? ==> senders.calls == old(senders.calls) - {t}
    {
      hide LinksFit, Partition, Complete, CallsFit, OnTime, Known, Queued, Messages;
      FreeOrNot();
      CallState(senders.ring, senders.calls, senders.errors, senders.woken, t);
      TimedOut(senders.calls, senders.errors, senders.began, senders.deadline, senders.late, now, t);
      if senders.errors[t] != EOK {
        r := Done(senders.errors[t]);
        senders.Leave(t, now);
        return;
      }
      var timeout := senders.Recheck(t, tick, now);
      if free != NULL {
        var n := Alloc();
        OneLess(senders.woken, t);
        senders.Leave(t, now);
        r := Node(n);
      } else if timeout == 0 {
        senders.Leave(t, now);
        r := Done(EFULL);
      } else {
        senders.Reenter(t, timeout, tick, now);
        QueuedMembers(old(senders.ring), senders.ring, senders.prio, senders.fifo, t);
        r := Result.Waits;
      }
    }

    /** rt_mq_send_wait after an rt_schedule that returned at once, because the scheduler is
        locked: afterwards somebody is in the wait list outside any call, or twice. */
    method SendLocked(t: Tid) returns (r: Result)
      requires Valid() && t in senders.prio && t in senders.ring && t in senders.calls
      modifies this`free, this`spare, this`flight, senders
      ensures !Valid()
      ensures old(spare) != [] ==> r == Node(old(spare)[0])
      ensures old(spare) == [] ==> r == if TimeLeft(old(senders.calls)[t], tick) == 0 then Done(EFULL) else Result.Waits
    {
      hide LinksFit, Partition, Complete, CallsFit, OnTime, Known, Queued, Messages;
      FreeOrNot();
      r := Done(EFULL);
      var served := free != NULL;
      if served {
        var n := Alloc();
        r := Node(n);
      }
      var waits := senders.GoOn(t, served, tick, now);
      if waits { r := Result.Waits; }
    }

    /** rt_mq_urgent, the first region. */
    method Urgent(size: nat) returns (r: Result)
      requires Valid() && size != 0
      modifies this`free, this`spare, this`flight
      ensures Valid() && (old(Kept()) ==> Kept()) && Pending() == old(Pending())
      ensures size > msgSize ==> r == Done(ERROR) && flight == old(flight) && spare == old(spare)
      ensures size <= msgSize && old(spare) == [] ==> r == Done(EFULL) && flight == old(flight)
      ensures size <= msgSize && old(spare) != [] ==>
        r == Node(old(spare)[0]) && flight == old(flight)[old(spare)[0] := Filling]
    {
      hide LinksFit, Partition, Complete, CallsFit, OnTime, Known, Messages;
      FreeOrNot();
      if size > msgSize { return Done(ERROR); }
      if free == NULL { return Done(EFULL); }
      var n := Alloc();
      r := Node(n);
    }

    /** rt_mq_recv by the thread t, up to its first rt_schedule or to the end of its first
        region: the first message is then in the hands of the thread. */
    method Recv(t: Tid, timeout: int) returns (r: Result)
      requires Valid() && t in receivers.prio && t !in receivers.calls && timeout < HALF_WORD
      modifies this`head, this`tail, this`entry, this`queue, this`flight, receivers
      ensures Valid() && (old(Kept()) ==> Kept())
      ensures old(Pending()) != [] ==>
        receivers.calls == old(receivers.calls) && TookFirst(r, old(Pending()), old(flight))
      ensures old(Pending()) == [] ==>
        Pending() == [] && flight == old(flight) && r == if timeout == 0 then Done(ETIMEOUT) else Result.Waits
      ensures receivers.woken == old(receivers.woken) && (!r.Waits? ==> receivers.ring == old(receivers.ring))
      ensures r.Waits? ==>
        t in receivers.ring && Queued(old(receivers.ring), receivers.ring, receivers.prio, receivers.fifo, t)
      ensures r.Waits? ==> receivers.calls == old(receivers.calls)[t := Call(timeout, tick)]
      ensures r.Waits? ==> t in receivers.deadline && receivers.deadline[t] == now + timeout && t !in receivers.late
    {
      hide LinksFit, Partition, Complete, CallsFit, OnTime, Known, Queued, Messages;
      FreeOrNot();
      if entry == 0 {
        if timeout == 0 { return Done(ETIMEOUT); }
        receivers.Enter(t, timeout, tick, now);
        QueuedMembers(old(receivers.ring), receivers.ring, receivers.prio, receivers.fifo, t);
        r := Result.Waits;
      } else {
        var n := TakeHead();
        r := Node(n);
      }
    }

    /** The first of the messages is in flight, to be drained; the others are pending. */
    ghost predicate TookFirst(r: Result, before: seq<Bytes>, flight0: map<nat, Flight>)
      requires Valid()
      reads this, next, data, receivers, senders
    {
      && r.Node? && r.n in flight && flight[r.n].Draining? && flight == flight0[r.n := flight[r.n]]
      && [flight[r.n].message] + Pending() == before
    }

    /** rt_mq_recv after an rt_schedule, the thread being READY. */
    method RecvAgain(t: Tid) returns (r: Result)
      requires Valid() && t in receivers.prio && t in receivers.calls && t !in receivers.ring
      modifies this`head, this`tail, this`entry, this`queue, this`flight, receivers
      ensures Valid() && (old(Kept()) ==> Kept())
      ensures t !in old(receivers.woken) ==>
        t in receivers.errors && r == Done(receivers.errors[t]) && r.error != EOK && Pending() == old(Pending())
      ensures t in old(receivers.woken) && old(Pending()) != [] ==> TookFirst(r, old(Pending()), old(flight))
      ensures t in old(receivers.woken) && old(Pending()) == [] ==>
        Pending() == [] && (r == Done(ETIMEOUT) || (r.Waits? && t in receivers.ring))
      ensures t in old(receivers.woken) && old(Pending()) == [] ==>
        LooksAgain(r.Waits?, t, old(receivers.calls), receivers.calls, old(receivers.deadline), old(receivers.began),
                   old(receivers.late), receivers.late, tick, now)
      ensures r.Waits? ==>
        receivers.deadline == old(receivers.deadline) &&
        Queued(old(receivers.ring), receivers.ring, receivers.prio, receivers.fifo, t)
      ensures r == Done(ETIMEOUT) && t !in receivers.late && old(receivers.calls)[t].timeout >= 0 ==>
        GaveUpInTime(receivers, t, now)
      ensures !r.Waits? ==> receivers.calls == old(receivers.calls) - {t}
    {
      hide LinksFit, Partition, Complete, CallsFit, OnTime, Known, Queued, Messages;
      FreeOrNot();
      CallState(receivers.ring, receivers.calls, receivers.errors, receivers.woken, t);
      TimedOut(receivers.calls, receivers.errors, receivers.began, receivers.deadline, receivers.late, now, t);
      if receivers.errors[t] != EOK {
        r := Done(receivers.errors[t]);
        receivers.Leave(t, now);
        return;
      }
      var timeout := receivers.Recheck(t, tick, now);
      if entry != 0 {
        var n := TakeHead();
        OneLess(receivers.woken, t);
        receivers.Leave(t, now);
        r := Node(n);
      } else if timeout == 0 {
        receivers.Leave(t, now);
        r := Done(ETIMEOUT);
      } else {
        receivers.Reenter(t, timeout, tick, now);
        QueuedMembers(old(receivers.ring), receivers.ring, receivers.prio, receivers.fifo, t);
        r := Result.Waits;
      }
    }

    /** rt_mq_recv after an rt_schedule that returned at once, because the scheduler is
        locked. */
    method RecvLocked(t: Tid) returns (r: Result)
      requires Valid() && t in receivers.prio && t in receivers.ring && t in receivers.calls
      modifies this`head, this`tail, this`entry, this`queue, this`flight, receivers
      ensures !Valid()
      ensures old(Pending()) != [] ==> r.Node?
      ensures old(Pending()) == [] ==>
        r == if TimeLeft(old(receivers.calls)[t], tick) == 0 then Done(ETIMEOUT) else Result.Waits
    {
      hide LinksFit, Partition, Complete, CallsFit, OnTime, Known, Queued, Messages;
      FreeOrNot();
      r := Done(ETIMEOUT);
      var served := entry != 0;
      if served {
        var n := TakeHead();
        r := Node(n);
      }
      var waits := receivers.GoOn(t, served, tick, now);
      if waits { r := Result.Waits; }
    }

    /** rt_thread_timeout for a waiting thread of either side. */
    method Expire(side: Side, t: Tid)
      requires Valid() && (side == receivers || side == senders) && t in side.ring && t in side.calls &&
        side.calls[t].timeout > 0
      requires t in side.deadline && (t in side.late || side.deadline[t] <= now)
      modifies side`ring, side`errors
      ensures Valid() && (old(Kept()) ==> Kept()) && side.ring == Without(old(side.ring), t) &&
        side.errors == old(side.errors)[t := ETIMEOUT]
    {
      hide LinksFit, Partition, Complete, CallsFit, OnTime, Known;
      side.Abort(t, ETIMEOUT, now);
    }

    /** rt_thread_resume of a waiting thread of either side: it looks again. */
    method Resume(side: Side, t: Tid)
      requires Valid() && (side == receivers || side == senders) && t in side.ring
      modifies side`ring, side`woken
      ensures Valid() && (old(Kept()) ==> Kept()) && Pending() == old(Pending())
      ensures side.ring == Without(old(side.ring), t) && side.woken == old(side.woken) + {t}
    {
      hide LinksFit, Partition, Complete, CallsFit, OnTime, Known, Messages;
      side.Resume(t, now);
    }

    /** rt_thread_detach, by any thread: a wake-up is lost if and only if one was on its way to
        t, others wait behind it, and no other woken thread is to spare. A node in the hands
        of t stays in flight. */
    method Detach(t: Tid)
      requires Valid()
      modifies receivers`ring, receivers`calls, receivers`woken, senders`ring, senders`calls, senders`woken
      ensures Valid() && Pending() == old(Pending())
      ensures old(Kept()) ==>
        (Kept() <==>
          && !old(LosesWake(receivers.ring, entry, receivers.woken, t))
          && !old(LosesWake(senders.ring, |spare|, senders.woken, t)))
      ensures receivers.ring == Without(old(receivers.ring), t) && receivers.woken == old(receivers.woken) - {t}
      ensures senders.ring == Without(old(senders.ring), t) && senders.woken == old(senders.woken) - {t}
      ensures t !in receivers.calls && t !in senders.calls
    {
      hide LinksFit, Partition, Complete, OnTime, Known, Messages;
      if Kept() {
        PromiseDetached(receivers.ring, entry, receivers.woken, t);
        PromiseDetached(senders.ring, |spare|, senders.woken, t);
      }
      receivers.Detach(t, now);
      senders.Detach(t, now);
    }

    /** rt_mq_control with RT_IPC_CMD_RESET: the queue is emptied into the free list; a
        node in flight stays with its thread. */
    method Reset()
      requires Valid()
      modifies this`head, this`tail, this`free, this`entry, this`queue, this`spare, this`flight, next, receivers`ring,
        receivers`errors, senders`ring, senders`errors
      ensures Valid() && Kept() && Pending() == [] && receivers.ring == [] && senders.ring == [] &&
        flight == old(flight)
    {
      hide LinksFit, Partition, Complete, CallsFit, OnTime, Known, Messages;
      receivers.AbortAll(now);
      senders.AbortAll(now);
      while entry != 0
        invariant Valid() && Kept() && receivers.ring == [] && senders.ring == [] && flight == old(flight)
        decreases entry
      {
        var n := TakeHead();
        Requeue(n);
        assert flight - {n} == old(flight);
      }
      FreeOrNot();
    }
  }

  lemma FlightLeaves(queue: seq<nat>, spare: seq<nat>, flight: map<nat, Flight>, max: nat, n: nat)
    requires Partition(max, queue, spare, flight) && n in flight
    ensures n < max && |queue| < max && |spare| < max && n !in queue && n !in spare
  {
    LandedCount(flight, n);
  }
}
