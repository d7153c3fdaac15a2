/** The session-zone lock of the protocol store: one zone holds the lock at a time, same-zone
    callers re-enter it, other callers queue.

    This module holds the lock alone, as values; `ZoneMachine` adds bodies and transactions,
    and `ZoneStore` is the class whose methods update the lock in place. */
module Zones {
  import opened Options

  /** A zone object: `id` stands for its identity, the flags are its options. */
  datatype Zone = Zone(id: nat, pendingSenderKeys: bool, pendingSessions: bool, pendingUnprocessed: bool)

  /** A queued `withZone` call. */
  datatype Waiter = Waiter(zone: Zone, call: nat)

  datatype Lock = Lock(current: Option<Zone>, depth: int, queue: seq<Waiter>)

  /** Must a call for `zone` wait? Only a different zone blocks it. */
  predicate Blocked(l: Lock, zone: Zone) {
    l.current.Some? && l.current.value != zone
  }

  function Enter(l: Lock, zone: Zone): Lock {
    l.(depth := l.depth + 1, current := if l.depth + 1 == 1 then Some(zone) else l.current)
  }

  function EnterAll(l: Lock, ws: seq<Waiter>): Lock
    decreases |ws|
  {
    if ws == [] then l else EnterAll(Enter(l, ws[0].zone), ws[1..])
  }

  /** How many waiters at the head of the queue are for `zone`. */
  function RunLength(q: seq<Waiter>, zone: Zone): (n: nat)
    ensures n <= |q|
    ensures forall i :: 0 <= i < n ==> q[i].zone == zone
    ensures n < |q| ==> q[n].zone != zone
  {
    if q == [] || q[0].zone != zone then 0 else 1 + RunLength(q[1..], zone)
  }

  /** The waiters that the last user of the current zone wakes. */
  function Woken(l: Lock): seq<Waiter> {
    if l.depth == 1 && l.queue != [] then l.queue[..RunLength(l.queue, l.queue[0].zone)] else []
  }

  function Leave(l: Lock): Lock {
    if l.depth != 1 then l.(depth := l.depth - 1)
    else EnterAll(Lock(None, 0, l.queue[|Woken(l)|..]), Woken(l))
  }

  /** What holds of the lock between any two events. */
  predicate LockInv(l: Lock) {
    && l.depth >= 0
    && (l.current.None? <==> l.depth == 0)
    && (l.current.None? ==> l.queue == [])
    && (l.queue != [] ==> l.queue[0].zone != l.current.value)
  }

  lemma {:induction false} EnterAllSameZone(l: Lock, ws: seq<Waiter>, zone: Zone)
    requires l.depth >= 0
    requires l.depth > 0 ==> l.current == Some(zone)
    requires forall i :: 0 <= i < |ws| ==> ws[i].zone == zone
    ensures EnterAll(l, ws) == Lock(if ws == [] then l.current else Some(zone), l.depth + |ws|, l.queue)
    decreases |ws|
  {
    if ws != [] {
      EnterAllSameZone(Enter(l, ws[0].zone), ws[1..], zone);
    }
  }

  /** Leaving at depth 1 hands the lock to the longest same-zone run at the head of the queue:
      the run enters in queue order, what stays queued starts with another zone, and nothing is
      dropped. */
  lemma LeaveHandsOver(l: Lock)
    requires LockInv(l) && l.depth == 1
    ensures Woken(l) + Leave(l).queue == l.queue
    ensures Leave(l).depth == |Woken(l)|
    ensures l.queue == [] <==> Woken(l) == []
    ensures l.queue != [] ==>
              && Leave(l).current == Some(l.queue[0].zone)
              && (forall w :: w in Woken(l) ==> w.zone == l.queue[0].zone)
              && (Leave(l).queue != [] ==> Leave(l).queue[0].zone != l.queue[0].zone)
    ensures LockInv(Leave(l))
  {
    if l.queue != [] {
      EnterAllSameZone(Lock(None, 0, l.queue[|Woken(l)|..]), Woken(l), l.queue[0].zone);
    }
  }
}
