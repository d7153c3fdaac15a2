/** Which writes wait in their zone and which are in the database at once, table by table, in runs with
    an atomic commit. */
module ZoneWrites {
  import opened Options
  import opened Zones
  import opened Transactions
  import opened ZoneMachine
  import opened ZoneRuns

  // ----- what is pending belongs to the current zone -----

  /** A table with something pending is one that the current zone holds back. */
  predicate PendingInZone(s: Sys) {
    && (s.txn.pending.senderKeys != map[] ==> s.lock.current.Some? && s.lock.current.value.pendingSenderKeys)
    && (s.txn.pending.sessions != map[] ==> s.lock.current.Some? && s.lock.current.value.pendingSessions)
    && (s.txn.pending.unprocessed != map[] ==> s.lock.current.Some? && s.lock.current.value.pendingUnprocessed)
  }

  lemma PendingStaysInZone(s: Sys, e: Event)
    requires AtomicInv(s) && PendingInZone(s)
    ensures PendingInZone(NextEvent(s, e))
  {
    match e
    case Arrive(zone) =>
    case Do(c, w) =>
      if c in s.active {
        DoSpec(s, c, w);
        var none: Table := map[];
        assert forall t: Table :: t + none == t;
      }
    case End(c, ok) =>
      if c in s.active {
        EndSpec(s, c, ok);
      }
  }

  lemma {:induction false} RunPendingInZone(s: Sys, es: seq<Event>)
    requires AtomicInv(s) && PendingInZone(s)
    ensures AtomicInv(AfterEvents(s, es)) && PendingInZone(AfterEvents(s, es))
    decreases |es|
  {
    hide NextEvent, AtomicInv, PendingInZone;
    if es != [] {
      AtomicStep(s, es[0]);
      PendingStaysInZone(s, es[0]);
      RunPendingInZone(NextEvent(s, es[0]), es[1..]);
    }
  }

  /** In every state of every run, for each of the three tables: something pending in it means that a
      zone is current and that this zone holds that table back. */
  lemma PendingIsHeldBack(db: Batch, es: seq<Event>)
    ensures PendingInZone(AfterEvents(Init(db), es))
  {
    InitIsAtomic(db);
    RunPendingInZone(Init(db), es);
  }

  lemma InitIsAtomic(db: Batch)
    ensures AtomicInv(Init(db))
  {
    OverlayNothing(db.(unprocessed := map[]));
  }

  // ----- a single write -----

  /** The write leaves the database alone and waits, on top of what else is pending. */
  predicate Waits(t: Txn, t': Txn, w: Write) {
    && t'.db == t.db && t'.cache == t.cache
    && match w
       case SenderKey(id, record) => t'.pending == t.pending.(senderKeys := t.pending.senderKeys[id := record])
       case Session(id, record) => t'.pending == t.pending.(sessions := t.pending.sessions[id := record])
       case Unprocessed(items) => t'.pending == t.pending.(unprocessed := t.pending.unprocessed + items)
  }

  /** The write is in the database, after all that was pending, and nothing is pending any more. */
  predicate IsWritten(t: Txn, t': Txn, w: Write) {
    && t'.pending == Batch(map[], map[], map[])
    && var senderKeys, sessions := t.db.senderKeys + t.pending.senderKeys, t.db.sessions + t.pending.sessions;
       var unprocessed := t.db.unprocessed + t.pending.unprocessed;
       match w
       case SenderKey(id, record) => t'.db == Batch(senderKeys[id := record], sessions, unprocessed)
       case Session(id, record) => t'.db == Batch(senderKeys, sessions[id := record], unprocessed)
       case Unprocessed(items) => t'.db == Batch(senderKeys, sessions, unprocessed + items)
  }

  /** Reading back what was written: the record just stored, whether or not it has been committed. */
  predicate ReadBack(t: Txn, w: Write) {
    match w
    case SenderKey(id, record) => Lookup(View(t).senderKeys, id) == Some(record)
    case Session(id, record) => Lookup(View(t).sessions, id) == Some(record)
    case Unprocessed(_) => true
  }

  lemma WriteSpec(s: Sys, c: nat, w: Write)
    requires AtomicInv(s) && c in s.active
    ensures var zone, t, t' := s.active[c].zone, s.txn, NextEvent(s, Do(c, w)).txn;
            && ReadBack(t', w)
            && match w
               case SenderKey(_, _) => if zone.pendingSenderKeys then Waits(t, t', w) else IsWritten(t, t', w)
               case Session(_, _) => if zone.pendingSessions then Waits(t, t', w) else IsWritten(t, t', w)
               case Unprocessed(_) => if zone.pendingUnprocessed then Waits(t, t', w) else IsWritten(t, t', w)
  {
    DoSpec(s, c, w);
    OverlayAssoc(s.txn.db, s.txn.pending, AsBatch(w));
    var none: Table := map[];
    assert forall t: Table :: t + none == t;
    match w
    case SenderKey(id, record) =>
      OneSet(s.txn.pending.senderKeys, id, record);
      OneSet(s.txn.db.senderKeys + s.txn.pending.senderKeys, id, record);
    case Session(id, record) =>
      OneSet(s.txn.pending.sessions, id, record);
      OneSet(s.txn.db.sessions + s.txn.pending.sessions, id, record);
    case Unprocessed(_) =>
  }

  lemma OneSet(t: Table, id: string, record: string)
    ensures t + map[id := record] == t[id := record]
  {
  }

  /** A write of any kind in any state of any run: if the zone of its body holds that kind back, the
      database stays as it is; if not, the write and all that was pending are in the database right
      after it. Either way it can be read back. */
  lemma WriteWaitsOrIsWritten(db: Batch, es: seq<Event>, c: nat, w: Write)
    requires c in AfterEvents(Init(db), es).active
    ensures var s := AfterEvents(Init(db), es);
            var zone, t, t' := s.active[c].zone, s.txn, NextEvent(s, Do(c, w)).txn;
            && ReadBack(t', w)
            && match w
               case SenderKey(_, _) => if zone.pendingSenderKeys then Waits(t, t', w) else IsWritten(t, t', w)
               case Session(_, _) => if zone.pendingSessions then Waits(t, t', w) else IsWritten(t, t', w)
               case Unprocessed(_) => if zone.pendingUnprocessed then Waits(t, t', w) else IsWritten(t, t', w)
  {
    InitIsAtomic(db);
    AtomicRun(Init(db), es);
    WriteSpec(AfterEvents(Init(db), es), c, w);
  }

  // ----- zones without any flag, such as the global one -----

  predicate Flagless(zone: Zone) {
    !zone.pendingSenderKeys && !zone.pendingSessions && !zone.pendingUnprocessed
  }

  /** Everybody inside or waiting is in a zone that holds nothing back. */
  predicate AllFlagless(s: Sys) {
    && (s.lock.current.Some? ==> Flagless(s.lock.current.value))
    && (forall w :: w in s.lock.queue ==> Flagless(w.zone))
    && s.txn.pending == NOTHING
  }

  predicate FlaglessCalls(es: seq<Event>) {
    forall e :: e in es && e.Arrive? ==> Flagless(e.zone)
  }

  lemma FlaglessStep(s: Sys, e: Event)
    requires AtomicInv(s) && AllFlagless(s) && (e.Arrive? ==> Flagless(e.zone))
    ensures AllFlagless(NextEvent(s, e))
    ensures NextEvent(s, e).txn.db ==
              if e.Do? && e.call in s.active then Overlay(s.txn.db, AsBatch(e.write)) else s.txn.db
  {
    match e
    case Arrive(zone) =>
    case Do(c, w) =>
      if c in s.active {
        DoSpec(s, c, w);
        OverlayNothing(AsBatch(w));
        assert Flagless(s.active[c].zone);
      }
    case End(c, ok) =>
      if c in s.active {
        EndSpec(s, c, ok);
        OverlayNothing(s.txn.db);
        if s.lock.depth == 1 {
          LeaveHandsOver(s.lock);
          assert forall w :: w in Leave(s.lock).queue ==> w in s.lock.queue;
        }
      }
  }

  lemma {:induction false} FlaglessRun(s: Sys, es: seq<Event>)
    requires AtomicInv(s) && AllFlagless(s) && FlaglessCalls(es)
    ensures AllFlagless(AfterEvents(s, es))
    ensures AfterEvents(s, es).txn.db == Written(s.txn.db, Performed(s, es))
    decreases |es|
  {
    hide NextEvent, AtomicInv, AllFlagless, AsBatch, Overlay;
    if es != [] {
      var e := es[0];
      assert e in es && forall x :: x in es[1..] ==> x in es;
      AtomicStep(s, e);
      FlaglessStep(s, e);
      FlaglessRun(NextEvent(s, e), es[1..]);
      var rest := Performed(NextEvent(s, e), es[1..]);
      assert ([] + rest) == rest;
      if e.Do? && e.call in s.active {
        assert ([e.write] + rest)[1..] == rest;
      }
    }
  }

  /** In runs of calls for zones without flags alone nothing is ever pending, and the database is the
      initial one with every write on top, in order, whichever bodies fail. */
  lemma GlobalZoneWritesThrough(db: Batch, es: seq<Event>)
    requires FlaglessCalls(es)
    ensures var s := AfterEvents(Init(db), es);
            s.txn.pending == NOTHING && s.txn.db == Written(db, Performed(Init(db), es))
  {
    InitIsAtomic(db);
    FlaglessRun(Init(db), es);
  }

  // ----- every run, with the commit in two steps -----

  /** The snapshot that a step writes: the one that a body waits with, if the database accepts it. */
  function Acknowledged(s: Sys, st: Step): Batch {
    match st
    case StoreDone(c, ok) =>
      if c in s.active && s.active[c].phase.Storing? && ok then s.active[c].phase.snapshot else NOTHING
    case CommitDone(c, ok) =>
      if c in s.active && s.active[c].phase.Committing? && ok then s.active[c].phase.snapshot else NOTHING
    case _ => NOTHING
  }

  function AllAcknowledged(s: Sys, steps: seq<Step>): seq<Batch>
    decreases |steps|
  {
    if steps == [] then [] else [Acknowledged(s, steps[0])] + AllAcknowledged(Next(s, steps[0]), steps[1..])
  }

  function Layered(under: Batch, layers: seq<Batch>): Batch
    decreases |layers|
  {
    if layers == [] then under else Layered(Overlay(under, layers[0]), layers[1..])
  }

  lemma DatabaseStep(s: Sys, st: Step)
    ensures Next(s, st).txn.db == Overlay(s.txn.db, Acknowledged(s, st))
    ensures Synced(s.txn) ==> Synced(Next(s, st).txn)
  {
    OverlayNothing(s.txn.db);
    if Synced(s.txn) {
      ApplySynced(s.txn, Acknowledged(s, st));
    }
  }

  /** In every state of every run, whatever the database rejects: it holds the initial content with each
      accepted snapshot on top, in order, and the caches hold the same. */
  lemma {:induction false} DatabaseIsAcknowledged(s: Sys, steps: seq<Step>)
    requires Synced(s.txn)
    ensures After(s, steps).txn.db == Layered(s.txn.db, AllAcknowledged(s, steps))
    ensures Synced(After(s, steps).txn)
    decreases |steps|
  {
    hide Next, Acknowledged, Overlay, Synced;
    if steps != [] {
      DatabaseStep(s, steps[0]);
      DatabaseIsAcknowledged(Next(s, steps[0]), steps[1..]);
      var rest := AllAcknowledged(Next(s, steps[0]), steps[1..]);
      assert ([Acknowledged(s, steps[0])] + rest)[1..] == rest;
    }
  }

  /** A snapshot is what was pending when it was taken, and it stays as it is while the body waits. */
  lemma SnapshotStep(s: Sys, st: Step, c: nat)
    requires Inv(s) && c in Next(s, st).active
    ensures var phase := Next(s, st).active[c].phase;
            && (phase.Committing? ==>
                  (c in s.active && s.active[c].phase == phase)
                  || (st == Settle(c, true) && phase.snapshot == s.txn.pending != NOTHING
                      && Next(s, st).txn.pending == NOTHING))
            && (phase.Storing? ==>
                  (c in s.active && s.active[c].phase == phase)
                  || (st.Store? && st.call == c && phase.snapshot == Overlay(s.txn.pending, AsBatch(st.write))
                      && phase.snapshot != NOTHING && Next(s, st).txn.pending == NOTHING))
  {
    if Enabled(s, st) && (st.Settle? || st.Exit?) {
      if s.lock.depth == 1 {
        LastInside(s, st.call);
      } else {
        assert Woken(s.lock) == [];
      }
    }
  }
}
