/** The lock and transaction fields of the protocol store and the methods that update them in
    place. Each method is proved against the value-level lock of `Zones` or the value-level
    transactions of `Transactions`. */
module ZoneStore {
  import opened Options
  import opened Zones
  import opened Transactions

  class SignalProtocolStore {
    var currentZone: Option<Zone>
    var currentZoneDepth: int
    var zoneQueue: seq<Waiter>
    var pendingSenderKeys: Table
    var pendingSessions: Table
    var pendingUnprocessed: Table
    var senderKeys: Table
    var sessions: Table

    ghost function State(): Lock
      reads this
    {
      Lock(currentZone, currentZoneDepth, zoneQueue)
    }

    /** The transaction state over a database `db`. */
    ghost function Tables(db: Batch): Txn
      reads this
    {
      Txn(Batch(pendingSenderKeys, pendingSessions, pendingUnprocessed),
          Batch(senderKeys, sessions, map[]), db)
    }

    /** The caches are filled from the database. */
    constructor (db: Batch)
      ensures State() == Lock(None, 0, []) && LockInv(State())
      ensures Tables(db) == Txn(NOTHING, db.(unprocessed := map[]), db)
    {
      currentZone, currentZoneDepth, zoneQueue := None, 0, [];
      pendingSenderKeys, pendingSessions, pendingUnprocessed := map[], map[], map[];
      senderKeys, sessions := db.senderKeys, db.sessions;
    }

    /** The synchronous part of `withZone`: enter now, or join the queue. */
    method WithZone(zone: Zone, call: nat) returns (entered: bool)
      requires currentZoneDepth >= 0 && (currentZone.None? <==> currentZoneDepth == 0)
      modifies `currentZone, `currentZoneDepth, `zoneQueue
      ensures old(LockInv(State())) ==> LockInv(State())
      ensures entered == !old(Blocked(State(), zone))
      ensures entered ==> State() == Enter(old(State()), zone) && currentZone == Some(zone)
      ensures !entered ==> State() == old(State()).(queue := old(zoneQueue) + [Waiter(zone, call)])
    {
      if currentZone.Some? && currentZone.value != zone {
        zoneQueue := zoneQueue + [Waiter(zone, call)];
        return false;
      }
      EnterZone(zone);
      return true;
    }

    method EnterZone(zone: Zone)
      requires currentZoneDepth == 0 ==> currentZone.None?
      modifies `currentZone, `currentZoneDepth
      ensures State() == Enter(old(State()), zone)
    {
      currentZoneDepth := currentZoneDepth + 1;
      if currentZoneDepth == 1 {
        currentZone := Some(zone);
      }
    }

    /** Leaves the zone; the last user hands the lock to the queue. The result is the waiters
        woken, in the order their bodies start. */
    method LeaveZone(zone: Zone) returns (woken: seq<Waiter>)
      requires LockInv(State()) && currentZone == Some(zone)
      modifies `currentZone, `currentZoneDepth, `zoneQueue
      ensures State() == Leave(old(State())) && LockInv(State())
      ensures woken == Woken(old(State()))
    {
      ghost var before := State();
      currentZoneDepth := currentZoneDepth - 1;
      if currentZoneDepth != 0 {
        return [];
      }
      LeaveHandsOver(before);
      currentZone := None;
      if zoneQueue == [] {
        return [];
      }
      var next := zoneQueue[0];
      zoneQueue := zoneQueue[1..];
      woken := [next];
      while zoneQueue != [] && zoneQueue[0].zone == next.zone
        invariant before.queue == woken + zoneQueue
        invariant forall w :: w in woken ==> w.zone == next.zone
        invariant currentZone == None && currentZoneDepth == 0
        invariant woken != [] && woken[0] == next
        decreases |zoneQueue|
      {
        woken := woken + [zoneQueue[0]];
        zoneQueue := zoneQueue[1..];
      }
      RunLengthIs(before.queue, |woken|, next.zone);
      assert woken == Woken(before);
      RunCallbacks(woken, next.zone);
    }

    /** Calls `withZone` for each waiter in turn: the first one takes the free zone, the others
        re-enter it, and none is queued again. */
    method RunCallbacks(toEnter: seq<Waiter>, ghost zone: Zone)
      requires currentZone == None && currentZoneDepth == 0
      requires forall w :: w in toEnter ==> w.zone == zone
      modifies `currentZone, `currentZoneDepth, `zoneQueue
      ensures State() == EnterAll(old(State()), toEnter)
    {
      for i := 0 to |toEnter|
        invariant State() == EnterAll(old(State()), toEnter[..i])
        invariant zoneQueue == old(zoneQueue)
        invariant currentZoneDepth == i
        invariant currentZone == if i == 0 then None else Some(zone)
      {
        EnterAllSnoc(old(State()), toEnter[..i], toEnter[i]);
        assert toEnter[..i] + [toEnter[i]] == toEnter[..i + 1];
        var entered := WithZone(toEnter[i].zone, toEnter[i].call);
        assert entered;
      }
      assert toEnter[..|toEnter|] == toEnter;
    }

    /** The part of a commit before the database is asked: take the pending tables. */
    method BeginCommit(ghost db: Batch) returns (snapshot: Option<Batch>)
      modifies `pendingSenderKeys, `pendingSessions, `pendingUnprocessed
      ensures Tables(db) == Clear(old(Tables(db)))
      ensures snapshot == if old(Tables(db)).pending == NOTHING then None else Some(old(Tables(db)).pending)
    {
      if pendingSenderKeys == map[] && pendingSessions == map[] && pendingUnprocessed == map[] {
        return None;
      }
      snapshot := Some(Batch(pendingSenderKeys, pendingSessions, pendingUnprocessed));
      pendingSenderKeys, pendingSessions, pendingUnprocessed := map[], map[], map[];
    }

    /** The part of a commit after the database took `snapshot`: copy it into the caches. */
    method FinishCommit(snapshot: Batch, ghost db: Batch)
      modifies `senderKeys, `sessions
      ensures Tables(Overlay(db, snapshot)) == Apply(old(Tables(db)), snapshot)
    {
      sessions := SetAll(sessions, snapshot.sessions);
      senderKeys := SetAll(senderKeys, snapshot.senderKeys);
      var none: Table := map[];
      assert none + none == none;
    }

    method RevertZoneChanges(ghost db: Batch)
      modifies `pendingSenderKeys, `pendingSessions, `pendingUnprocessed
      ensures Tables(db) == Clear(old(Tables(db)))
    {
      pendingSenderKeys, pendingSessions, pendingUnprocessed := map[], map[], map[];
    }

    /** The body of `storeSession`: the write goes to the pending table; a zone that cannot hold
        sessions back starts a commit of everything that is pending. */
    method StoreSession(zone: Zone, id: string, record: string, ghost db: Batch) returns (snapshot: Option<Batch>)
      modifies `pendingSenderKeys, `pendingSessions, `pendingUnprocessed
      ensures var t := Put(old(Tables(db)), Session(id, record));
              if zone.pendingSessions then snapshot == None && Tables(db) == t
              else snapshot == Some(t.pending) && Tables(db) == Clear(t)
    {
      ghost var t := Put(Tables(db), Session(id, record));
      pendingSessions := pendingSessions[id := record];
      var none: Table := map[];
      assert pendingSenderKeys + none == pendingSenderKeys && pendingUnprocessed + none == pendingUnprocessed;
      assert Tables(db) == t;
      if zone.pendingSessions {
        return None;
      }
      assert id in t.pending.sessions;
      snapshot := BeginCommit(db);
    }

    /** The body of `saveSenderKey`, which does the same with the sender keys. */
    method SaveSenderKey(zone: Zone, id: string, record: string, ghost db: Batch) returns (snapshot: Option<Batch>)
      modifies `pendingSenderKeys, `pendingSessions, `pendingUnprocessed
      ensures var t := Put(old(Tables(db)), SenderKey(id, record));
              if zone.pendingSenderKeys then snapshot == None && Tables(db) == t
              else snapshot == Some(t.pending) && Tables(db) == Clear(t)
    {
      ghost var t := Put(Tables(db), SenderKey(id, record));
      pendingSenderKeys := pendingSenderKeys[id := record];
      var none: Table := map[];
      assert pendingSessions + none == pendingSessions && pendingUnprocessed + none == pendingUnprocessed;
      assert Tables(db) == t;
      if zone.pendingSenderKeys {
        return None;
      }
      assert id in t.pending.senderKeys;
      snapshot := BeginCommit(db);
    }

    /** The body of `addMultipleUnprocessed`; without any item there may be nothing to commit. */
    method AddMultipleUnprocessed(zone: Zone, items: Table, ghost db: Batch) returns (snapshot: Option<Batch>)
      modifies `pendingSenderKeys, `pendingSessions, `pendingUnprocessed
      ensures var t := Put(old(Tables(db)), Unprocessed(items));
              if zone.pendingUnprocessed then snapshot == None && Tables(db) == t
              else snapshot == (if t.pending == NOTHING then None else Some(t.pending)) && Tables(db) == Clear(t)
    {
      ghost var t := Put(Tables(db), Unprocessed(items));
      pendingUnprocessed := SetAll(pendingUnprocessed, items);
      var none: Table := map[];
      assert pendingSenderKeys + none == pendingSenderKeys && pendingSessions + none == pendingSessions;
      assert Tables(db) == t;
      if zone.pendingUnprocessed {
        return None;
      }
      snapshot := BeginCommit(db);
    }

    /** The body of `loadSession`. */
    method LoadSession(id: string, ghost db: Batch) returns (record: Option<string>)
      ensures record == Lookup(View(Tables(db)).sessions, id)
    {
      var table := if id in pendingSessions then pendingSessions else sessions;
      record := if id in table then Some(table[id]) else None;
    }

    /** The body of `getSenderKey`. */
    method GetSenderKey(id: string, ghost db: Batch) returns (record: Option<string>)
      ensures record == Lookup(View(Tables(db)).senderKeys, id)
    {
      var table := if id in pendingSenderKeys then pendingSenderKeys else senderKeys;
      record := if id in table then Some(table[id]) else None;
    }

    /** The union of the caches and the pending sessions, pending ones winning. */
    method GetAllSessions(ghost db: Batch) returns (union: Table)
      ensures union == View(Tables(db)).sessions
    {
      union := SetAll(sessions, pendingSessions);
    }
  }

  /** Sets every entry of `entries` in `table`, in some order. */
  method SetAll(table: Table, entries: Table) returns (r: Table)
    ensures r == table + entries
  {
    r := table;
    var todo := entries.Keys;
    while todo != {}
      invariant todo <= entries.Keys
      invariant r == table + (map k | k in entries && k !in todo :: entries[k])
      decreases todo
    {
      var k :| k in todo;
      r := r[k := entries[k]];
      todo := todo - {k};
    }
    assert (map k | k in entries && k !in todo :: entries[k]) == entries;
  }

  lemma {:induction false} RunLengthIs(q: seq<Waiter>, n: nat, zone: Zone)
    requires n <= |q| && forall i :: 0 <= i < n ==> q[i].zone == zone
    requires n < |q| ==> q[n].zone != zone
    ensures RunLength(q, zone) == n
  {
    if n > 0 {
      RunLengthIs(q[1..], n - 1, zone);
    }
  }

  lemma {:induction false} EnterAllSnoc(l: Lock, ws: seq<Waiter>, w: Waiter)
    ensures EnterAll(l, ws + [w]) == Enter(EnterAll(l, ws), w.zone)
    decreases |ws|
  {
    if ws != [] {
      EnterAllSnoc(Enter(l, ws[0].zone), ws[1..], w);
      assert (ws + [w])[1..] == ws[1..] + [w];
    }
  }
}
