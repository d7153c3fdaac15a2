/** Trust over runs of the identity store. */
module IdentityLaws {
  import opened Options
  import opened ServiceIds
  import opened Identities

  datatype Event =
    | Saves(id: ServiceId, key: Key, approval: bool, now: nat)
    | Approves(id: ServiceId, approval: bool)
    | SetsVerified(id: ServiceId, status: Status, firstUse: Option<bool>, nonblocking: Option<bool>)
    | Syncs(id: ServiceId, status: Status, key: Key, now: nat)
    | SavesAttributes(id: ServiceId, attributes: Attributes)
    | Removes(id: ServiceId)

  /** A step that throws changes nothing. */
  function Next(s: Store, e: Event, ours: set<ServiceId>): Store {
    match e
    case Saves(id, key, approval, now) => SaveIdentity(s, id, key, approval, now, ours)
    case Approves(id, approval) => OrElse(SetApproval(s, id, approval), s)
    case SetsVerified(id, status, firstUse, nonblocking) => OrElse(SetVerified(s, id, status, firstUse, nonblocking), s)
    case Syncs(id, status, key, now) => UpdateAfterSync(s, id, status, key, now)
    case SavesAttributes(id, a) => OrElse(SaveWithAttributes(s, id, a), s)
    case Removes(id) => RemoveIdentityKey(s, id)
  }

  function After(s: Store, es: seq<Event>, ours: set<ServiceId>): Store
    decreases |es|
  {
    if es == [] then s else After(Next(s, es[0], ours), es[1..], ours)
  }

  /** The status that a step sets outright for a contact. */
  function Explicit(e: Event, id: ServiceId): Option<Status> {
    if e.id != id then None
    else if e.SetsVerified? || e.Syncs? then Some(e.status)
    else if e.SavesAttributes? then e.attributes.verified
    else None
  }

  // ----- distrust lasts -----

  predicate Distrusted(s: Store, id: ServiceId) {
    id in s.records && s.records[id].publicKey.Some? && s.records[id].verified == Unverified
  }

  /** A step that neither sets another status for the contact nor removes its record. */
  predicate LeavesStatus(e: Event, id: ServiceId) {
    e != Removes(id) && (Explicit(e, id).Some? ==> Explicit(e, id) == Some(Unverified))
  }

  lemma {:induction false} DistrustLasts(s: Store, es: seq<Event>, id: ServiceId, ours: set<ServiceId>)
    requires Distrusted(s, id) && forall i :: 0 <= i < |es| ==> LeavesStatus(es[i], id)
    ensures Distrusted(After(s, es, ours), id)
    decreases |es|
  {
    if es != [] {
      StillDistrusted(s, es[0], id, ours);
      DistrustLasts(Next(s, es[0], ours), es[1..], id, ours);
    }
  }

  lemma StillDistrusted(s: Store, e: Event, id: ServiceId, ours: set<ServiceId>)
    requires Distrusted(s, id) && LeavesStatus(e, id)
    ensures Distrusted(Next(s, e, ours), id)
  {
  }

  /** Once the key of a verified contact who is not ourselves is replaced, no key of theirs is trusted
      for sending, at any time, however many keys are saved and approvals given, until a step sets
      another status outright or removes the record. */
  lemma ReplacedIsDistrusted(s: Store, id: ServiceId, key: Key, approval: bool, now: nat, ours: set<ServiceId>,
                             es: seq<Event>, previous: Option<Key>, other: Key, later: nat)
    requires id in s.records && id !in ours && s.records[id].verified != Default
    requires s.records[id].publicKey.Some? && s.records[id].publicKey != Some(key)
    requires forall i :: 0 <= i < |es| ==> LeavesStatus(es[i], id)
    ensures var s' := After(SaveIdentity(s, id, key, approval, now, ours), es, ours);
            !TrustedForSending(RecordOf(s', id), previous, other, later)
  {
    DistrustLasts(SaveIdentity(s, id, key, approval, now, ours), es, id, ours);
  }

  /** Right after a replacement the new key is trusted exactly when the contact had no verified status
      either way and the change is approved or five seconds old; no other key is trusted. */
  lemma ReplacedTrustIff(s: Store, id: ServiceId, key: Key, approval: bool, now: nat, ours: set<ServiceId>,
                         previous: Option<Key>, other: Key, later: nat)
    requires id in s.records && id !in ours
    requires s.records[id].publicKey.Some? && s.records[id].publicKey != Some(key)
    ensures TrustedForSending(RecordOf(SaveIdentity(s, id, key, approval, now, ours), id), previous, other, later) <==>
              other == key && s.records[id].verified == Default && (approval || later >= now + TIMESTAMP_THRESHOLD)
  {
  }

  // ----- verified marks belong to a key -----

  /** The step marks the contact as verified, with this key on record afterwards. */
  predicate Vouches(s: Store, e: Event, id: ServiceId, key: Key, ours: set<ServiceId>) {
    && Explicit(e, id) == Some(Verified)
    && id in Next(s, e, ours).records && Next(s, e, ours).records[id].publicKey == Some(key)
  }

  /** Some step of the run vouches for the key, and the key stays on record from there on. */
  ghost predicate Vouched(s: Store, es: seq<Event>, id: ServiceId, key: Key, ours: set<ServiceId>)
    decreases |es|
  {
    es != [] &&
    var last, before := es[|es| - 1], es[..|es| - 1];
    && id in After(s, es, ours).records && After(s, es, ours).records[id].publicKey == Some(key)
    && (Vouches(After(s, before, ours), last, id, key, ours) || Vouched(s, before, id, key, ours))
  }

  lemma {:induction false} AfterSnoc(s: Store, es: seq<Event>, e: Event, ours: set<ServiceId>)
    ensures After(s, es + [e], ours) == Next(After(s, es, ours), e, ours)
    decreases |es|
  {
    hide Next;
    if es == [] {
      assert [e][1..] == [] && [] + [e] == [e];
      assert After(s, [e], ours) == After(Next(s, e, ours), [], ours);
    } else {
      assert (es + [e])[1..] == es[1..] + [e];
      AfterSnoc(Next(s, es[0], ours), es[1..], e, ours);
    }
  }

  predicate IsVerified(s: Store, id: ServiceId) {
    id in s.records && s.records[id].verified == Verified
  }

  /** The step would carry a verified mark over to another key: it sets attributes of that contact,
      among them a different key, and no status. */
  predicate PassesMarkOn(s: Store, e: Event, id: ServiceId) {
    && e.SavesAttributes? && e.id == id && e.attributes.verified.None?
    && id in s.records && e.attributes.publicKey.Some? && e.attributes.publicKey != s.records[id].publicKey
  }

  /** From a verified record, the exact steps after which another key is verified without being
      vouched for. */
  lemma AttributesCarryTheMark(s: Store, e: Event, id: ServiceId, ours: set<ServiceId>)
    requires IsVerified(s, id) && s.records[id].publicKey.Some?
    ensures var s' := Next(s, e, ours);
            PassesMarkOn(s, e, id) <==>
              && IsVerified(s', id) && s'.records[id].publicKey != s.records[id].publicKey
              && Explicit(e, id) != Some(Verified)
  {
  }

  /** How a record comes to be verified: the step vouches for its key, or it was verified for that key
      before, or its mark was passed on to it. */
  lemma VerifiedStep(s: Store, e: Event, id: ServiceId, ours: set<ServiceId>)
    requires AllHaveKeys(s)
    requires IsVerified(Next(s, e, ours), id)
    ensures Next(s, e, ours).records[id].publicKey.Some?
    ensures var key := Next(s, e, ours).records[id].publicKey;
            || Vouches(s, e, id, key.value, ours)
            || (IsVerified(s, id) && (s.records[id].publicKey == key <==> !PassesMarkOn(s, e, id)))
  {
    if e.id != id {
      OtherContacts(s, e, id, ours);
    }
  }

  /** A step for one contact leaves the records of the others. */
  lemma OtherContacts(s: Store, e: Event, id: ServiceId, ours: set<ServiceId>)
    requires e.id != id
    ensures RecordOf(Next(s, e, ours), id) == RecordOf(s, id)
  {
  }

  predicate AllHaveKeys(s: Store) {
    forall id :: id in s.records ==> s.records[id].publicKey.Some?
  }

  lemma KeysStayNext(s: Store, e: Event, ours: set<ServiceId>)
    requires AllHaveKeys(s)
    ensures AllHaveKeys(Next(s, e, ours))
  {
  }

  lemma {:induction false} KeysStay(s: Store, es: seq<Event>, ours: set<ServiceId>)
    requires AllHaveKeys(s)
    ensures AllHaveKeys(After(s, es, ours))
    decreases |es|
  {
    hide Next, AllHaveKeys;
    if es != [] {
      KeysStayNext(s, es[0], ours);
      KeysStay(Next(s, es[0], ours), es[1..], ours);
    }
  }

  /** Some step of the run passed the mark of the contact on, and no step vouched for its key since. */
  ghost predicate WasPassedOn(s: Store, es: seq<Event>, id: ServiceId, ours: set<ServiceId>)
    decreases |es|
  {
    es != [] &&
    var last, before := es[|es| - 1], es[..|es| - 1];
    && IsVerified(After(s, es, ours), id)
    && !(exists key: Key :: Vouches(After(s, before, ours), last, id, key, ours))
    && (PassesMarkOn(After(s, before, ours), last, id) || WasPassedOn(s, before, id, ours))
  }

  /** In every run from an empty store, whoever is verified was marked as such with the very key that
      is on record, which has stayed there since, exactly unless the mark was passed on by attributes
      with another key and no status, and no step vouched for a key since. */
  lemma {:induction false} VerifiedIsVouched(
      es: seq<Event>, id: ServiceId, previousKeys: map<ServiceId, Key>, ours: set<ServiceId>)
    requires IsVerified(After(Store(map[], previousKeys, []), es, ours), id)
    ensures var s := Store(map[], previousKeys, []);
            && After(s, es, ours).records[id].publicKey.Some?
            && (Vouched(s, es, id, After(s, es, ours).records[id].publicKey.value, ours)
                <==> !WasPassedOn(s, es, id, ours))
    decreases |es|
  {
    hide Next, PassesMarkOn;
    var s := Store(map[], previousKeys, []);
    if es == [] {
      assert false;
    }
    var last, before := es[|es| - 1], es[..|es| - 1];
    assert es == before + [last];
    AfterSnoc(s, before, last, ours);
    KeysStay(s, before, ours);
    VerifiedStep(After(s, before, ours), last, id, ours);
    if IsVerified(After(s, before, ours), id) {
      VerifiedIsVouched(before, id, previousKeys, ours);
    }
  }

  // ----- announcements -----

  /** A key is announced as changed exactly when it takes the place of a different one: on record, or
      saved on the conversation while there is no record. */
  lemma SaveAnnouncesIff(s: Store, id: ServiceId, key: Key, approval: bool, now: nat, ours: set<ServiceId>)
    requires AllHaveKeys(s)
    ensures var s' := SaveIdentity(s, id, key, approval, now, ours);
            var known := if id in s.records then s.records[id].publicKey
                         else if id in s.previousKeys then Some(s.previousKeys[id]) else None;
            && (s'.keyChanges == s.keyChanges + [id] <==>
                  known.Some? && known != Some(key) && !(id in s.records && id in ours))
            && (s'.keyChanges == s.keyChanges || s'.keyChanges == s.keyChanges + [id])
  {
  }

  /** Somebody without a record: a key is trusted for sending exactly when saving it would announce no
      change; and once a key is saved, exactly that key is trusted, at once and for good. */
  lemma FirstSight(s: Store, id: ServiceId, key: Key, approval: bool, now: nat, ours: set<ServiceId>,
                   other: Key, later: nat, previous: Option<Key>)
    requires id !in s.records
    ensures var saved := if id in s.previousKeys then Some(s.previousKeys[id]) else None;
            var s' := SaveIdentity(s, id, key, approval, now, ours);
            && (TrustedForSending(RecordOf(s, id), saved, key, now) <==> s'.keyChanges == s.keyChanges)
            && (TrustedForSending(RecordOf(s, id), saved, key, now) <==> saved == None || saved == Some(key))
            && (TrustedForSending(RecordOf(s', id), previous, other, later) <==> other == key)
            && id !in s'.previousKeys
  {
  }

  // ----- what a step makes of one record -----

  /** The key that a step puts on record. */
  function KeyGiven(s: Store, e: Event, id: ServiceId, ours: set<ServiceId>): Option<Key> {
    if e.id != id then None
    else match e
         case Saves(_, key, _, _) => if id in ours && id in s.records then None else Some(key)
         case Syncs(_, _, key, _) => Some(key)
         case SavesAttributes(_, a) => a.publicKey
         case _ => None
  }

  /** The step puts another key on record, or a sync that says something new. */
  predicate Replaces(s: Store, e: Event, id: ServiceId, ours: set<ServiceId>) {
    && e.id == id && id in s.records
    && match e
       case Saves(_, key, _, _) => s.records[id].publicKey != Some(key) && id !in ours
       case Syncs(_, status, key, _) => s.records[id].publicKey != Some(key) || s.records[id].verified != status
       case _ => false
  }

  /** What a step says of an approval: a replacement, an approval, and a key saved again within five
      seconds of an unapproved replacement. */
  function ApprovalGiven(s: Store, e: Event, id: ServiceId, ours: set<ServiceId>): Option<bool> {
    if e.id != id || id !in s.records then None
    else match e
         case Saves(_, key, approval, now) =>
           var r := s.records[id];
           var again := r.publicKey == Some(key) && !r.firstUse && now < r.timestamp + TIMESTAMP_THRESHOLD
                        && !r.nonblockingApproval;
           if Replaces(s, e, id, ours) || again then Some(approval) else None
         case Approves(_, approval) => Some(approval)
         case SetsVerified(_, _, _, nonblocking) => nonblocking
         case Syncs(_, _, _, _) => if Replaces(s, e, id, ours) then Some(true) else None
         case SavesAttributes(_, a) => a.nonblockingApproval
         case Removes(_) => None
  }

  predicate GivenOrKept<T(==)>(given: Option<T>, before: T, after: T) {
    match given
    case None => after == before
    case Some(v) => after == v
  }

  /** What decides about trust besides key and status: a replaced key is no first use and dates from now,
      and otherwise first use, date and approval are as given or as before. */
  lemma TrustStep(s: Store, e: Event, id: ServiceId, ours: set<ServiceId>)
    requires AllHaveKeys(s) && id in s.records && e != Removes(id)
    ensures var s' := Next(s, e, ours);
            id in s'.records &&
            var before, after := s.records[id], s'.records[id];
            && GivenOrKept(ApprovalGiven(s, e, id, ours), before.nonblockingApproval, after.nonblockingApproval)
            && (if Replaces(s, e, id, ours) then !after.firstUse && after.timestamp == e.now
                else
                  && GivenOrKept(if e.id != id then None
                                 else if e.SetsVerified? then e.firstUse
                                 else if e.SavesAttributes? then e.attributes.firstUse else None,
                                 before.firstUse, after.firstUse)
                  && GivenOrKept(if e.id == id && e.SavesAttributes? then e.attributes.timestamp else None,
                                 before.timestamp, after.timestamp))
  {
    if e.id != id {
      OtherContacts(s, e, id, ours);
    }
  }

  /** A record stays until it is removed. After any step its key is the one given or the old one; its
      status is the one given, or falls from verified to unverified with another key, or is the old one. */
  lemma RecordStep(s: Store, e: Event, id: ServiceId, ours: set<ServiceId>)
    requires AllHaveKeys(s) && id in s.records
    ensures var s' := Next(s, e, ours);
            var before, given := s.records[id], KeyGiven(s, e, id, ours);
            && (id in s'.records <==> e != Removes(id))
            && (id in s'.records ==>
                  var after := s'.records[id];
                  && after.publicKey == (if given.Some? then given else before.publicKey)
                  && after.verified == (if Explicit(e, id).Some? then Explicit(e, id).value
                                        else if e.Saves? && after.publicKey != before.publicKey
                                                && before.verified != Default then Unverified
                                        else before.verified))
  {
    if e.id != id {
      OtherContacts(s, e, id, ours);
    }
  }

  /** Who has no record gets one exactly by a key that is saved or synced, or by complete attributes. */
  lemma NewRecord(s: Store, e: Event, id: ServiceId, ours: set<ServiceId>)
    requires id !in s.records
    ensures var s' := Next(s, e, ours);
            && (id in s'.records <==>
                  e.id == id &&
                  match e
                  case Saves(_, _, _, _) => true
                  case Syncs(_, _, _, _) => true
                  case SavesAttributes(_, a) =>
                    a.publicKey.Some? && a.firstUse.Some? && a.timestamp.Some? && a.verified.Some?
                    && a.nonblockingApproval.Some?
                  case _ => false)
            && (id in s'.records ==>
                  && s'.records[id].publicKey == KeyGiven(s, e, id, ours)
                  && (e.Saves? || e.Syncs? ==> s'.records[id].firstUse && s'.records[id].timestamp == e.now)
                  && (e.Saves? ==> s'.records[id].nonblockingApproval == e.approval)
                  && (e.Syncs? ==> s'.records[id].nonblockingApproval)
                  && s'.records[id].verified == if Explicit(e, id).Some? then Explicit(e, id).value else Default)
  {
    if e.id != id {
      OtherContacts(s, e, id, ours);
    }
  }

  /** Attributes are rejected exactly when the record would have no key, or a new one would lack any of
      its parts; so no record without a key is ever made of them. */
  lemma AttributesRejectedIff(s: Store, id: ServiceId, a: Attributes)
    ensures SaveWithAttributes(s, id, a) == None <==>
              if id in s.records then a.publicKey.None? && s.records[id].publicKey.None?
              else a.publicKey.None? || a.firstUse.None? || a.timestamp.None? || a.verified.None?
                   || a.nonblockingApproval.None?
    ensures SaveWithAttributes(s, id, a).Some? ==>
              id in SaveWithAttributes(s, id, a).value.records
              && SaveWithAttributes(s, id, a).value.records[id].publicKey.Some?
  {
  }

  // ----- approval -----

  predicate TrustedAt(s: Store, id: ServiceId, key: Key, now: nat) {
    TrustedForSending(RecordOf(s, id), None, key, now)
  }

  /** An approval, noted outright or with the same key saved again, makes the key on record trusted from
      then on unless the contact is unverified; withdrawing it leaves a replaced key to its five seconds. */
  lemma ApprovalTrusts(s: Store, id: ServiceId, key: Key, now: nat, ours: set<ServiceId>, other: Key, later: nat)
    requires id in s.records && s.records[id].publicKey == Some(key)
    ensures var r := s.records[id];
            var noted := SetApproval(s, id, true).value;
            var saved := SaveIdentity(s, id, key, true, now, ours);
            var withdrawn := SetApproval(s, id, false).value;
            && SetApproval(s, id, true).Some? && SetApproval(s, id, false).Some?
            && (TrustedAt(noted, id, other, later) <==> other == key && r.verified != Unverified)
            && (later >= now ==> (TrustedAt(saved, id, other, later) <==> other == key && r.verified != Unverified))
            && (TrustedAt(withdrawn, id, other, later) <==>
                  other == key && r.verified != Unverified
                  && (r.firstUse || later >= r.timestamp + TIMESTAMP_THRESHOLD))
            && (forall any: Key :: TrustedAt(saved, id, any, later) ==> any == key)
  {
  }

  /** A sync that changes the record makes exactly its key trusted, at once, unless it says unverified;
      it announces a change of the key on record, or of the saved key when there is no record. */
  lemma SyncTrusts(s: Store, id: ServiceId, status: Status, key: Key, now: nat, other: Key, later: nat)
    ensures var s' := UpdateAfterSync(s, id, status, key, now);
            var known := if id in s.records then s.records[id].publicKey
                         else if id in s.previousKeys then Some(s.previousKeys[id]) else None;
            && (s'.records != s.records ==>
                  (TrustedAt(s', id, other, later) <==> other == key && status != Unverified))
            && (s'.records == s.records ==>
                  id in s.records && s.records[id].publicKey == Some(key) && s.records[id].verified == status)
            && (known.Some? ==> (s'.keyChanges == s.keyChanges + [id] <==> known != Some(key)))
            && (known.Some? && known == Some(key) ==> s'.keyChanges == s.keyChanges)
            && (id !in s.records && known == None ==> s'.keyChanges == s.keyChanges)
  {
    if id !in s.records {
      assert id in UpdateAfterSync(s, id, status, key, now).records;
    }
  }
}
