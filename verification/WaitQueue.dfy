/** What the blocking objects need to know of threads: who waits, at which priority, and
    with which result. How threads become ready is the Kernel module's matter.
 */
module WaitQueue {

  import opened Ids
  import opened Lists

  type Priorities = map<Tid, nat>

  ghost predicate Known(ring: seq<Tid>, prio: Priorities) {
    forall t :: t in ring ==> t in prio
  }

  /** Where rt_ipc_list_suspend links a thread of priority p. */
  ghost predicate IsSlot(ring: seq<Tid>, prio: Priorities, p: nat, fifo: bool, k: nat)
    requires Known(ring, prio)
  {
    && k <= |ring|
    && if fifo then k == |ring|
       else (forall i :: 0 <= i < k ==> prio[ring[i]] <= p) && (k < |ring| ==> p < prio[ring[k]])
  }

  /** The search of rt_ipc_list_suspend. */
  method FindSlot(ring: seq<Tid>, prio: Priorities, p: nat, fifo: bool) returns (k: nat)
    requires Known(ring, prio)
    ensures IsSlot(ring, prio, p, fifo, k)
  {
    k := |ring|;
    if !fifo {
      k := 0;
      while k < |ring| && prio[ring[k]] <= p
        invariant k <= |ring| && forall i :: 0 <= i < k ==> prio[ring[i]] <= p
      {
        k := k + 1;
      }
    }
  }

  lemma SlotRange(ring: seq<Tid>, prio: Priorities, p: nat, fifo: bool, k: nat)
    requires Known(ring, prio) && IsSlot(ring, prio, p, fifo, k)
    ensures k <= |ring|
  {
  }

  /** t was linked at its slot. */
  ghost predicate Queued(before: seq<Tid>, after: seq<Tid>, prio: Priorities, fifo: bool, t: Tid) {
    && Known(before, prio) && t in prio
    && exists k :: 0 <= k <= |before| && IsSlot(before, prio, prio[t], fifo, k) && after == Splice(before, k, t)
  }

  lemma QueuedMembers(before: seq<Tid>, after: seq<Tid>, prio: Priorities, fifo: bool, t: Tid)
    requires Queued(before, after, prio, fifo, t)
    ensures |after| == |before| + 1 && forall x :: x in after <==> x == t || x in before
  {
    var k :| 0 <= k <= |before| && IsSlot(before, prio, prio[t], fifo, k) && after == Splice(before, k, t);
    SpliceMembers(before, k, t);
  }

  lemma StillKnown(ring: seq<Tid>, ring': seq<Tid>, prio: Priorities)
    requires Known(ring, prio) && forall t :: t in ring' ==> t in ring
    ensures Known(ring', prio)
  {
  }
}
