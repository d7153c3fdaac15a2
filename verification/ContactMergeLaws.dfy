/** What finding or making a conversation guarantees: it holds what was passed in, nobody else does,
    and only contacts with nothing left are merged away. */
module ContactMergeLaws {
  import opened Options
  import opened ServiceIds
  import opened Contacts
  import opened ContactMerge

  predicate Holds(c: Contact, v: Value) {
    match v
    case AciValue(aci) => c.serviceId == Some(OfAci(aci))
    case PhoneValue(phone) => c.e164 == Some(phone)
    case PniValue(pni) => HoldsPni(c, pni)
  }

  predicate HoldsArg(c: Contact, v: Option<Value>) {
    v.Some? && Holds(c, v.value)
  }

  /** Nobody but `id` holds the value. */
  predicate Only(contacts: map<Id, Contact>, id: Id, v: Value) {
    forall other :: other in contacts && other != id ==> !Holds(contacts[other], v)
  }

  predicate Nobody(contacts: map<Id, Contact>, v: Value) {
    forall id :: id in contacts ==> !Holds(contacts[id], v)
  }

  /** The lookup finds the one who holds a value, if anybody does. */
  lemma LookupFinds(b: Book, v: Value)
    requires Good(b)
    ensures Lookup(b, v).None? <==> Nobody(b.contacts, v)
    ensures Lookup(b, v).Some? ==>
              var id := Lookup(b, v).value;
              id in b.contacts && Holds(b.contacts[id], v) && Only(b.contacts, id, v)
  {
    match v
    case AciValue(aci) =>
      assert forall id :: id in b.contacts && Holds(b.contacts[id], v) ==>
          ServiceIdOf(b.contacts[id]) == Some(OfAci(aci));
    case PhoneValue(phone) =>
      assert forall id :: id in b.contacts && Holds(b.contacts[id], v) ==> E164Of(b.contacts[id]) == Some(phone);
    case PniValue(pni) =>
      forall id | id in b.contacts && Holds(b.contacts[id], v)
        ensures ServiceIdOf(b.contacts[id]) == Some(OfPni(pni)) || PniOf(b.contacts[id]) == Some(pni)
      {
      }
  }

  // ----- single changes -----

  predicate Shrunk(now: Contact, before: Contact) {
    && (now.serviceId.None? || now.serviceId == before.serviceId)
    && (now.e164.None? || now.e164 == before.e164)
    && (now.pni.None? || now.pni == before.pni)
  }

  /** Setting a value that nobody else holds. */
  lemma ValueSet(b: Book, id: Id, v: Value)
    requires Good(b) && id in b.contacts && Only(b.contacts, id, v)
    ensures Good(Apply(b, id, SetTo(v)))
    ensures Apply(b, id, SetTo(v)).contacts == b.contacts[id := After(b.contacts[id], SetTo(v))]
    ensures Holds(After(b.contacts[id], SetTo(v)), v)
  {
    OwnFree(b, id);
    hide Good, Apply;
    Applied(b, id, SetTo(v));
  }

  /** Taking a value off a contact leaves less of it, and none of the value. */
  lemma ValueTaken(b: Book, id: Id, v: Value, pni: Option<Pni>)
    requires Good(b) && id in b.contacts && !v.AciValue? && (v.PniValue? ==> pni == Some(v.pni))
    ensures var change := TakeOff(b.contacts[id], v, pni);
            var d := After(b.contacts[id], change);
            && Good(Apply(b, id, change)) && Apply(b, id, change).contacts == b.contacts[id := d]
            && Shrunk(d, b.contacts[id]) && !Holds(d, v)
  {
    OwnFree(b, id);
    hide Good, Apply;
    Applied(b, id, TakeOff(b.contacts[id], v, pni));
  }

  /** Moving a value from the only contact that holds it to another one. */
  lemma ValueMoved(s: Merge, found: Id, v: Value, pni: Option<Pni>)
    requires Good(s.book) && Fits(s) && s.target.Some? && s.target.value != found && found in s.book.contacts
    requires !v.AciValue? && (v.PniValue? ==> pni == Some(v.pni)) && Only(s.book.contacts, found, v)
    ensures var r := Claim(s, found, v, pni);
            var c, t := s.book.contacts[found], s.target.value;
            var d := After(c, TakeOff(c, v, pni));
            && Good(r.book) && r.target == s.target && r.unused == s.unused
            && r.book.contacts == s.book.contacts[found := d][t := After(s.book.contacts[t], SetTo(v))]
            && Shrunk(d, c) && !Holds(d, v) && Holds(r.book.contacts[t], v)
            && r.handed == s.handed + if Empty(d) then [found] else []
  {
    hide Good, After, TakeOff, SetTo, Apply, Holds;
    ValueTaken(s.book, found, v, pni);
    var b1 := Apply(s.book, found, TakeOff(s.book.contacts[found], v, pni));
    assert Only(b1.contacts, s.target.value, v);
    ValueSet(b1, s.target.value, v);
  }

  // ----- after the ACI and the phone number -----

  function Given(aci: Option<Aci>, e164: Option<Phone>): seq<Value> {
    (if aci.Some? then [AciValue(aci.value)] else []) + (if e164.Some? then [PhoneValue(e164.value)] else [])
  }

  /** A contact other than the target has at most lost identifiers, and only if it had the phone
      number; it was handed over if nothing is left of it. */
  predicate OtherMid(now: Contact, before: Contact, gone: bool, aci: Option<Aci>, e164: Option<Phone>) {
    && Shrunk(now, before) && (HoldsArg(before, PhoneArg(e164)) || now == before)
    && !HoldsArg(now, AciArg(aci)) && !HoldsArg(now, PhoneArg(e164))
    && (gone <==> HoldsArg(before, PhoneArg(e164)) && Empty(now))
  }

  predicate OthersMid(b: Book, s: Merge, t: Id, aci: Option<Aci>, e164: Option<Phone>) {
    && s.book.contacts.Keys == b.contacts.Keys + {t}
    && (forall id :: id in s.handed ==> id in b.contacts && id != t)
    && (forall id :: id in b.contacts && id != t ==>
          OtherMid(s.book.contacts[id], b.contacts[id], id in s.handed, aci, e164))
  }

  lemma UnchangedMid(c: Contact, aci: Option<Aci>, e164: Option<Phone>)
    requires !HoldsArg(c, AciArg(aci)) && !HoldsArg(c, PhoneArg(e164))
    ensures OtherMid(c, c, false, aci, e164)
  {
  }

  /** The target holds what was passed in. It is the contact with that ACI, or if nobody has that, the
      contact with that phone number, or a new one if that contact cannot take the ACI. */
  predicate TargetMid(b: Book, c: Contact, t: Id, aci: Option<Aci>, e164: Option<Phone>, pni: Option<Pni>) {
    && (aci.Some? ==> Holds(c, AciValue(aci.value)) && Only(b.contacts, t, AciValue(aci.value)))
    && (e164.Some? ==> Holds(c, PhoneValue(e164.value)))
    && (if t in b.contacts then
          && (c.pni.None? || c.pni == b.contacts[t].pni)
          && (aci.None? ==> c == b.contacts[t])
          && (HoldsArg(b.contacts[t], AciArg(aci))
              || (HoldsArg(b.contacts[t], PhoneArg(e164)) && c.pni == b.contacts[t].pni))
        else
          && c.pni.None? && aci.Some? && e164.Some?
          && forall id :: id in b.contacts && Holds(b.contacts[id], PhoneValue(e164.value)) ==>
               b.contacts[id].serviceId != PniSlot(pni))
  }

  ghost predicate Mid(b: Book, s: Merge, aci: Option<Aci>, e164: Option<Phone>, pni: Option<Pni>) {
    && Good(s.book) && Fits(s)
    && match s.target
       case None => s == Merge(b, None, Given(aci, e164), []) && forall v :: v in s.unused ==> Nobody(b.contacts, v)
       case Some(t) =>
         s.unused == [] && OthersMid(b, s, t, aci, e164) && TargetMid(b, s.book.contacts[t], t, aci, e164, pni)
  }

  /** After the ACI, nothing has changed: its contact is the target, or it waits. */
  function AfterAci(b: Book, aci: Option<Aci>): Merge {
    if aci.Some? && Lookup(b, AciValue(aci.value)).Some? then Merge(b, Lookup(b, AciValue(aci.value)), [], [])
    else Merge(b, None, Given(aci, None), [])
  }

  lemma AciStep(b: Book, aci: Option<Aci>, pni: Option<Pni>)
    requires Good(b)
    ensures ItemFits(ItemFor(b, AciArg(aci)), b)
    ensures Step(Merge(b, None, [], []), ItemFor(b, AciArg(aci)), pni) == AfterAci(b, aci)
  {
    if aci.Some? {
      LookupFinds(b, AciValue(aci.value));
    }
    hide Good, Lookup, Only, Nobody;
  }

  lemma MidWithoutPhone(b: Book, aci: Option<Aci>, pni: Option<Pni>)
    requires Good(b)
    ensures Mid(b, AfterAci(b, aci), aci, None, pni)
  {
    hide Good, Lookup, OtherMid;
    if aci.Some? {
      LookupFinds(b, AciValue(aci.value));
    }
    var s := AfterAci(b, aci);
    if s.target.Some? {
      forall id | id in b.contacts && id != s.target.value
        ensures OtherMid(b.contacts[id], b.contacts[id], false, aci, None)
      {
        UnchangedMid(b.contacts[id], aci, None);
      }
    }
  }

  /** A target with the ACI that gets the phone number. */
  lemma TargetWithPhone(b: Book, c: Contact, t: Id, aci: Aci, phone: Phone, pni: Option<Pni>)
    requires if t in b.contacts then c == b.contacts[t] && Holds(c, AciValue(aci))
             else
               && c == Contact(Some(OfAci(aci)), None, None)
               && forall id :: id in b.contacts && Holds(b.contacts[id], PhoneValue(phone)) ==>
                    b.contacts[id].serviceId != PniSlot(pni)
    requires Only(b.contacts, t, AciValue(aci))
    ensures TargetMid(b, After(c, SetTo(PhoneValue(phone))), t, Some(aci), Some(phone), pni)
  {
    hide Only;
  }

  /** No phone match: the number goes onto the target. */
  lemma PhoneOntoTarget(b: Book, aci: Aci, phone: Phone, t: Id, pni: Option<Pni>)
    requires Good(b) && Lookup(b, AciValue(aci)) == Some(t) && Nobody(b.contacts, PhoneValue(phone))
    ensures t in b.contacts
    ensures Mid(b, Merge(Apply(b, t, SetTo(PhoneValue(phone))), Some(t), [], []), Some(aci), Some(phone), pni)
  {
    hide Good, Lookup, Apply, OtherMid, TargetMid, Holds, After;
    LookupFinds(b, AciValue(aci));
    ValueSet(b, t, PhoneValue(phone));
    forall id | id in b.contacts && id != t
      ensures OtherMid(b.contacts[id], b.contacts[id], false, Some(aci), Some(phone))
    {
      UnchangedMid(b.contacts[id], Some(aci), Some(phone));
    }
    TargetWithPhone(b, b.contacts[t], t, aci, phone, pni);
  }

  lemma NewWithAci(aci: Aci, phone: Phone)
    ensures var c := Contact(Some(OfAci(aci)), None, None);
            Holds(c, AciValue(aci)) && !Holds(c, PhoneValue(phone))
  {
  }

  lemma TakenMid(now: Contact, before: Contact, aci: Aci, phone: Phone)
    requires Shrunk(now, before) && Holds(before, PhoneValue(phone))
    requires !Holds(now, PhoneValue(phone)) && !Holds(before, AciValue(aci))
    ensures OtherMid(now, before, Empty(now), Some(aci), Some(phone))
  {
  }

  /** A phone match other than the target gives the number up to it. */
  lemma PhoneMoved(b: Book, s: Merge, aci: Aci, phone: Phone, t: Id, found: Id, pni: Option<Pni>)
    requires Good(b) && Lookup(b, PhoneValue(phone)) == Some(found) && found != t && found in b.contacts
    requires s == Merge(s.book, Some(t), [], []) && Good(s.book) && t in s.book.contacts
    requires Only(b.contacts, t, AciValue(aci))
    requires if t in b.contacts then s.book == b && Holds(b.contacts[t], AciValue(aci))
             else s.book.contacts == b.contacts[t := Contact(Some(OfAci(aci)), None, None)]
                  && b.contacts[Lookup(b, PhoneValue(phone)).value].serviceId != PniSlot(pni)
    ensures found in s.book.contacts
    ensures Mid(b, Claim(s, found, PhoneValue(phone), pni), Some(aci), Some(phone), pni)
  {
    hide Good, Lookup, Claim, OtherMid, TargetMid, Holds, After, Shrunk, TakeOff;
    var v := PhoneValue(phone);
    LookupFinds(b, v);
    NewWithAci(aci, phone);
    assert Only(s.book.contacts, found, v);
    ValueMoved(s, found, v, pni);
    var c := s.book.contacts[found];
    var d := After(c, TakeOff(c, v, pni));
    forall id | id in b.contacts && id != t && id != found
      ensures OtherMid(b.contacts[id], b.contacts[id], false, Some(aci), Some(phone))
    {
      UnchangedMid(b.contacts[id], Some(aci), Some(phone));
    }
    TakenMid(d, c, aci, phone);
    TargetWithPhone(b, s.book.contacts[t], t, aci, phone, pni);
  }

  /** The contact found has the number, and the ACI if there is one: nothing changes. */
  lemma NothingMoved(b: Book, aci: Option<Aci>, phone: Phone, t: Id, pni: Option<Pni>)
    requires Good(b) && Lookup(b, PhoneValue(phone)) == Some(t)
    requires aci.Some? ==> Lookup(b, AciValue(aci.value)) == Some(t)
    ensures t in b.contacts && Holds(b.contacts[t], PhoneValue(phone))
    ensures Mid(b, Merge(b, Some(t), [], []), aci, Some(phone), pni)
  {
    hide Good, Lookup, OtherMid, Holds;
    LookupFinds(b, PhoneValue(phone));
    if aci.Some? {
      LookupFinds(b, AciValue(aci.value));
    }
    forall id | id in b.contacts && id != t ensures OtherMid(b.contacts[id], b.contacts[id], false, aci, Some(phone)) {
      UnchangedMid(b.contacts[id], aci, Some(phone));
    }
  }

  /** A phone match that can take the ACI, which nobody has. */
  lemma AciOntoMatch(b: Book, aci: Aci, phone: Phone, t: Id, pni: Option<Pni>)
    requires Good(b) && Lookup(b, AciValue(aci)) == None && Lookup(b, PhoneValue(phone)) == Some(t)
    ensures t in b.contacts && Holds(After(b.contacts[t], SetTo(AciValue(aci))), PhoneValue(phone))
    ensures Apply(b, t, SetTo(AciValue(aci))).contacts == b.contacts[t := After(b.contacts[t], SetTo(AciValue(aci)))]
    ensures Mid(b, Merge(Apply(b, t, SetTo(AciValue(aci))), Some(t), [], []), Some(aci), Some(phone), pni)
  {
    hide Good, Lookup, OtherMid, TargetMid, Holds, After, Apply, SetTo;
    LookupFinds(b, PhoneValue(phone));
    LookupFinds(b, AciValue(aci));
    ValueSet(b, t, AciValue(aci));
    forall id | id in b.contacts && id != t
      ensures OtherMid(b.contacts[id], b.contacts[id], false, Some(aci), Some(phone))
    {
      UnchangedMid(b.contacts[id], Some(aci), Some(phone));
    }
    TargetWithAci(b, t, aci, phone, pni);
  }

  lemma TargetWithAci(b: Book, t: Id, aci: Aci, phone: Phone, pni: Option<Pni>)
    requires t in b.contacts && Holds(b.contacts[t], PhoneValue(phone)) && Only(b.contacts, t, AciValue(aci))
    ensures TargetMid(b, After(b.contacts[t], SetTo(AciValue(aci))), t, Some(aci), Some(phone), pni)
    ensures Holds(After(b.contacts[t], SetTo(AciValue(aci))), PhoneValue(phone))
  {
    hide Only;
  }

  /** A new contact for a value that nobody has. */
  lemma NewTarget(b: Book, v: Value)
    requires Good(b) && Lookup(b, v) == None && !v.PniValue?
    ensures var b' := Apply(AddContact(b, NewContact(v)), b.nextId, SetTo(v));
            && b.nextId !in b.contacts && Good(b')
            && b'.contacts == b.contacts[b.nextId := NewContact(v)]
  {
    hide Good, Lookup, Apply, AddContact;
    LookupFinds(b, v);
    NewIsFree(b, v);
    Added(b, NewContact(v));
    var b1 := AddContact(b, NewContact(v));
    assert Only(b1.contacts, b.nextId, v);
    ValueSet(b1, b.nextId, v);
  }

  lemma NewIsFree(b: Book, v: Value)
    requires Nobody(b.contacts, v) && !v.PniValue?
    ensures Free(b, b.nextId, NewContact(v))
    ensures After(NewContact(v), SetTo(v)) == NewContact(v)
  {
  }

  lemma UseAllOne(s: Merge, found: Id, v: Value, pni: Option<Pni>)
    requires Fits(s) && found in s.book.contacts
    ensures UseAll(s, found, [v], pni) == UseOne(s, found, v, pni)
  {
    assert [v][1..] == [];
  }

  /** After the ACI and the phone number. */
  lemma MidAfterPhone(b: Book, aci: Option<Aci>, phone: Phone, pni: Option<Pni>)
    requires Good(b)
    ensures var item := ItemFor(b, Some(PhoneValue(phone)));
            && ItemFits(item, b) && Fits(AfterAci(b, aci)) && AfterAci(b, aci).book == b
            && Mid(b, Step(AfterAci(b, aci), item, pni), aci, Some(phone), pni)
  {
    hide Good, Lookup, OthersMid, TargetMid, After, Apply, AddContact, Suits, Claim;
    LookupFinds(b, PhoneValue(phone));
    AciStep(b, aci, pni);
    var s, found := AfterAci(b, aci), Lookup(b, PhoneValue(phone));
    if aci.Some? {
      LookupFinds(b, AciValue(aci.value));
    }
    if found.None? {
      if s.target.Some? {
        PhoneOntoTarget(b, aci.value, phone, s.target.value, pni);
      }
    } else if s.target == found || aci.None? {
      NothingMoved(b, aci, phone, found.value, pni);
      SameClaim(s, found.value, PhoneValue(phone), pni);
    } else if s.target.Some? {
      PhoneMoved(b, s, aci.value, phone, s.target.value, found.value, pni);
    } else {
      UseAllOne(s, found.value, AciValue(aci.value), pni);
      if Suits(b.contacts[found.value], AciValue(aci.value), pni) {
        AciOntoMatch(b, aci.value, phone, found.value, pni);
        SameClaim(UseOne(s, found.value, AciValue(aci.value), pni).(unused := []), found.value, PhoneValue(phone), pni);
      } else {
        Unsuited(b.contacts[found.value], aci.value, pni);
        NewTarget(b, AciValue(aci.value));
        var s' := UseOne(s, found.value, AciValue(aci.value), pni).(unused := []);
        PhoneMoved(b, s', aci.value, phone, b.nextId, found.value, pni);
      }
    }
  }

  lemma Unsuited(c: Contact, aci: Aci, pni: Option<Pni>)
    requires !Suits(c, AciValue(aci), pni)
    ensures c.serviceId != PniSlot(pni)
  {
  }

  lemma SameClaim(s: Merge, found: Id, v: Value, pni: Option<Pni>)
    requires Fits(s) && found in s.book.contacts && Holds(s.book.contacts[found], v) && !v.PniValue?
    requires s.target.None? || s.target == Some(found)
    ensures Claim(s, found, v, pni) == s.(target := Some(found))
  {
  }
}
