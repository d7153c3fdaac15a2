/** Identity keys of contacts: which key is on record, whether it was verified, and whether it is
    trusted for sending. */
module Identities {
  import opened Options
  import opened ServiceIds

  type Key = nat

  /** In milliseconds: how long a replaced key waits for approval. */
  const TIMESTAMP_THRESHOLD := 5000

  datatype Status = Default | Verified | Unverified

  datatype Record = Record(
    publicKey: Option<Key>, firstUse: bool, timestamp: nat, verified: Status, nonblockingApproval: bool)

  /** Records by service id, the keys saved on conversations across session switches, and the contacts
      whose key was announced as changed. */
  datatype Store = Store(
    records: map<ServiceId, Record>, previousKeys: map<ServiceId, Key>, keyChanges: seq<ServiceId>)

  datatype Attributes = Attributes(
    publicKey: Option<Key>, firstUse: Option<bool>, timestamp: Option<nat>,
    verified: Option<Status>, nonblockingApproval: Option<bool>)

  function RecordOf(s: Store, id: ServiceId): Option<Record> {
    if id in s.records then Some(s.records[id]) else None
  }

  predicate NonBlockingApprovalRequired(r: Record, now: nat) {
    !r.firstUse && r.timestamp > now - TIMESTAMP_THRESHOLD && !r.nonblockingApproval
  }

  predicate TrustedForSending(r: Option<Record>, previousKey: Option<Key>, key: Key, now: nat) {
    match r
    case None => previousKey.None? || previousKey == Some(key)
    case Some(record) =>
      record.publicKey.None?
      || (record.publicKey == Some(key) && record.verified != Unverified && !NonBlockingApprovalRequired(record, now))
  }

  /** Announces a change unless the saved key is the new one, and forgets the saved key. */
  function CheckPreviousKey(s: Store, id: ServiceId, key: Key): Store {
    if id !in s.previousKeys then s else
    s.(previousKeys := s.previousKeys - {id},
       keyChanges := s.keyChanges + if s.previousKeys[id] != key then [id] else [])
  }

  function AfterReplacement(status: Status): Status {
    if status == Default then Default else Unverified
  }

  /** Keeps a key seen for the first time, replaces a different one, and otherwise at most notes the
      approval. Our own key is never replaced. */
  function SaveIdentity(s: Store, id: ServiceId, key: Key, approval: bool, now: nat, ours: set<ServiceId>): Store {
    var r := RecordOf(s, id);
    if r.None? || r.value.publicKey.None? then
      CheckPreviousKey(s.(records := s.records[id := Record(Some(key), true, now, Default, approval)]), id, key)
    else if r.value.publicKey != Some(key) then
      if id in ours then s else
      s.(records := s.records[id := Record(Some(key), false, now, AfterReplacement(r.value.verified), approval)],
         keyChanges := s.keyChanges + [id])
    else if NonBlockingApprovalRequired(r.value, now) then
      s.(records := s.records[id := r.value.(nonblockingApproval := approval)])
    else s
  }

  /** None where the source throws, here for want of a record. */
  function SetApproval(s: Store, id: ServiceId, approval: bool): Option<Store> {
    if id !in s.records then None
    else Some(s.(records := s.records[id := s.records[id].(nonblockingApproval := approval)]))
  }

  /** Throws also for a record without a key. */
  function SetVerified(s: Store, id: ServiceId, status: Status, firstUse: Option<bool>, approval: Option<bool>)
    : Option<Store>
  {
    if id !in s.records || s.records[id].publicKey.None? then None else
    var r := s.records[id];
    Some(s.(records := s.records[id := r.(verified := status, firstUse := OrElse(firstUse, r.firstUse),
                                          nonblockingApproval := OrElse(approval, r.nonblockingApproval))]))
  }

  /** The record with some attributes replaced, if the result is complete. */
  function Updated(r: Option<Record>, a: Attributes): Option<Record> {
    if r.Some? then
      var u := Record(if a.publicKey.Some? then a.publicKey else r.value.publicKey,
                      OrElse(a.firstUse, r.value.firstUse), OrElse(a.timestamp, r.value.timestamp),
                      OrElse(a.verified, r.value.verified),
                      OrElse(a.nonblockingApproval, r.value.nonblockingApproval));
      if u.publicKey.Some? then Some(u) else None
    else if a.publicKey.Some? && a.firstUse.Some? && a.timestamp.Some? && a.verified.Some?
            && a.nonblockingApproval.Some? then
      Some(Record(a.publicKey, a.firstUse.value, a.timestamp.value, a.verified.value, a.nonblockingApproval.value))
    else None
  }

  function SaveWithAttributes(s: Store, id: ServiceId, a: Attributes): Option<Store> {
    var u := Updated(RecordOf(s, id), a);
    if u.None? then None else Some(s.(records := s.records[id := u.value]))
  }

  /** A status that came from another device, for a key. */
  function UpdateAfterSync(s: Store, id: ServiceId, status: Status, key: Key, now: nat): Store {
    var r := RecordOf(s, id);
    var keyMatches := r.Some? && r.value.publicKey == Some(key);
    var s' := if keyMatches && r.value.verified == status then s
              else s.(records := s.records[id := Record(Some(key), r.None?, now, status, true)]);
    if r.None? then CheckPreviousKey(s', id, key)
    else if !keyMatches then s'.(keyChanges := s'.keyChanges + [id])
    else s'
  }

  function RemoveIdentityKey(s: Store, id: ServiceId): Store {
    s.(records := s.records - {id})
  }

  // ----- the cache, updated in place -----

  class IdentityKeyStore {
    const ours: set<ServiceId>
    var identityKeys: map<ServiceId, Record>
    var previousKeys: map<ServiceId, Key>
    var keyChanges: seq<ServiceId>

    constructor (ours: set<ServiceId>)
      ensures this.ours == ours && Snapshot() == Store(map[], map[], [])
    {
      this.ours := ours;
      identityKeys, previousKeys, keyChanges := map[], map[], [];
    }

    function Snapshot(): Store
      reads this
    {
      Store(identityKeys, previousKeys, keyChanges)
    }

    method CheckPrevious(id: ServiceId, key: Key)
      modifies `previousKeys, `keyChanges
      ensures Snapshot() == CheckPreviousKey(old(Snapshot()), id, key)
    {
      if id in previousKeys {
        if previousKeys[id] != key {
          keyChanges := keyChanges + [id];
        }
        previousKeys := previousKeys - {id};
      }
    }

    /** Tells whether a known key was replaced. */
    method Save(id: ServiceId, key: Key, approval: bool, now: nat) returns (replaced: bool)
      modifies this
      ensures Snapshot() == SaveIdentity(old(Snapshot()), id, key, approval, now, ours)
      ensures replaced <==> id in old(identityKeys) && old(identityKeys[id]).publicKey.Some?
                            && old(identityKeys[id]).publicKey != identityKeys[id].publicKey
    {
      replaced := false;
      if id !in identityKeys || identityKeys[id].publicKey.None? {
        identityKeys := identityKeys[id := Record(Some(key), true, now, Default, approval)];
        CheckPrevious(id, key);
        return;
      }
      var record := identityKeys[id];
      if record.publicKey != Some(key) {
        if id in ours {
          return;
        }
        var status := if record.verified == Verified || record.verified == Unverified then Unverified else Default;
        identityKeys := identityKeys[id := Record(Some(key), false, now, status, approval)];
        keyChanges := keyChanges + [id];
        replaced := true;
      } else if NonBlockingApprovalRequired(record, now) {
        identityKeys := identityKeys[id := record.(nonblockingApproval := approval)];
      }
    }

    method Approve(id: ServiceId, approval: bool) returns (ok: bool)
      modifies `identityKeys
      ensures ok == SetApproval(old(Snapshot()), id, approval).Some?
      ensures Snapshot() == OrElse(SetApproval(old(Snapshot()), id, approval), old(Snapshot()))
    {
      ok := id in identityKeys;
      if ok {
        identityKeys := identityKeys[id := identityKeys[id].(nonblockingApproval := approval)];
      }
    }

    method Verify(id: ServiceId, status: Status, firstUse: Option<bool>, approval: Option<bool>) returns (ok: bool)
      modifies `identityKeys
      ensures ok == SetVerified(old(Snapshot()), id, status, firstUse, approval).Some?
      ensures Snapshot() == OrElse(SetVerified(old(Snapshot()), id, status, firstUse, approval), old(Snapshot()))
    {
      ok := id in identityKeys && identityKeys[id].publicKey.Some?;
      if ok {
        var r := identityKeys[id];
        identityKeys := identityKeys[id := r.(verified := status, firstUse := OrElse(firstUse, r.firstUse),
                                              nonblockingApproval := OrElse(approval, r.nonblockingApproval))];
      }
    }

    method SaveAttributes(id: ServiceId, a: Attributes) returns (ok: bool)
      modifies `identityKeys
      ensures ok == SaveWithAttributes(old(Snapshot()), id, a).Some?
      ensures Snapshot() == OrElse(SaveWithAttributes(old(Snapshot()), id, a), old(Snapshot()))
    {
      var u := Updated(RecordOf(Snapshot(), id), a);
      ok := u.Some?;
      if ok {
        identityKeys := identityKeys[id := u.value];
      }
    }

    /** Tells whether the contact became verified or stopped being so. */
    method Sync(id: ServiceId, status: Status, key: Key, now: nat) returns (notify: bool)
      modifies this
      ensures Snapshot() == UpdateAfterSync(old(Snapshot()), id, status, key, now)
      ensures var before, after := RecordOf(old(Snapshot()), id), RecordOf(Snapshot(), id);
              && after.Some?
              && (notify <==> (before.Some? && before.value.verified == Verified) != (after.value.verified == Verified))
    {
      var hadEntry := id in identityKeys;
      notify := (status == Verified && (!hadEntry || identityKeys[id].verified != Verified))
                || (status != Verified && hadEntry && identityKeys[id].verified == Verified);
      var keyMatches := hadEntry && identityKeys[id].publicKey == Some(key);
      if !keyMatches || identityKeys[id].verified != status {
        var ok := SaveAttributes(id, Attributes(Some(key), Some(!hadEntry), Some(now), Some(status), Some(true)));
      }
      if !hadEntry {
        CheckPrevious(id, key);
      } else if !keyMatches {
        keyChanges := keyChanges + [id];
      }
    }

    method Remove(id: ServiceId)
      modifies `identityKeys
      ensures Snapshot() == RemoveIdentityKey(old(Snapshot()), id)
    {
      identityKeys := identityKeys - {id};
    }
  }
}
