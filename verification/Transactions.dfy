/** Session transactions: writes held back in pending tables over the committed caches and the
    database, then committed or reverted together. */
module Transactions {
  import opened Options
  import opened Zones

  type Table = map<string, string>

  datatype Batch = Batch(senderKeys: Table, sessions: Table, unprocessed: Table)

  const NOTHING := Batch(map[], map[], map[])

  function Overlay(under: Batch, over: Batch): Batch {
    Batch(under.senderKeys + over.senderKeys, under.sessions + over.sessions,
          under.unprocessed + over.unprocessed)
  }

  datatype Write =
    | SenderKey(id: string, record: string)
    | Session(id: string, record: string)
    | Unprocessed(items: Table)

  function AsBatch(w: Write): Batch {
    match w
    case SenderKey(id, record) => Batch(map[id := record], map[], map[])
    case Session(id, record) => Batch(map[], map[id := record], map[])
    case Unprocessed(items) => Batch(map[], map[], items)
  }

  /** May `zone` hold `w` back until it is left? */
  predicate Supports(zone: Zone, w: Write) {
    match w
    case SenderKey(_, _) => zone.pendingSenderKeys
    case Session(_, _) => zone.pendingSessions
    case Unprocessed(_) => zone.pendingUnprocessed
  }

  /** `cache` has no unprocessed table of its own: that part of it stays empty. */
  datatype Txn = Txn(pending: Batch, cache: Batch, db: Batch)

  function Put(t: Txn, w: Write): Txn {
    t.(pending := Overlay(t.pending, AsBatch(w)))
  }

  function Clear(t: Txn): Txn {
    t.(pending := NOTHING)
  }

  function Apply(t: Txn, snapshot: Batch): Txn {
    t.(db := Overlay(t.db, snapshot),
       cache := Overlay(t.cache, snapshot.(unprocessed := map[])))
  }

  /** What `loadSession` and `getSenderKey` can see. */
  function View(t: Txn): Batch {
    Overlay(t.cache, t.pending.(unprocessed := map[]))
  }

  function Lookup(m: Table, id: string): Option<string> {
    if id in m then Some(m[id]) else None
  }

  lemma OverlayNothing(b: Batch)
    ensures Overlay(b, NOTHING) == b && Overlay(NOTHING, b) == b
  {
    assert forall m: Table :: m + map[] == m && map[] + m == m;
  }

  lemma OverlayAssoc(a: Batch, b: Batch, c: Batch)
    ensures Overlay(Overlay(a, b), c) == Overlay(a, Overlay(b, c))
  {
    assert forall x: Table, y: Table, z: Table :: x + y + z == x + (y + z);
  }
}
