/** Finding or making the one conversation for an ACI, a phone number and a PNI that belong together. */
module ContactMerge {
  import opened Options
  import opened ServiceIds
  import opened Contacts

  /** An identifier that was passed in. */
  datatype Value = AciValue(aci: Aci) | PhoneValue(phone: Phone) | PniValue(pni: Pni)

  /** A value, if it was passed in, and who was found by it before anything changed. */
  datatype Item = Item(value: Option<Value>, found: Option<Id>)

  /** The state of the loop: the contacts, the conversation chosen so far, the values for which none
      was found before one was chosen, and those handed over to be merged away. */
  datatype Merge = Merge(book: Book, target: Option<Id>, unused: seq<Value>, handed: seq<Id>)

  function Find<K>(table: map<K, Id>, k: K): Option<Id> {
    if k in table then Some(table[k]) else None
  }

  /** A PNI is looked for as a service id first. */
  function Lookup(b: Book, v: Value): Option<Id> {
    match v
    case AciValue(aci) => Find(b.byServiceId, OfAci(aci))
    case PhoneValue(phone) => Find(b.byE164, phone)
    case PniValue(pni) =>
      if Find(b.byServiceId, OfPni(pni)).Some? then Find(b.byServiceId, OfPni(pni)) else Find(b.byPni, pni)
  }

  function SetTo(v: Value): Change {
    match v
    case AciValue(aci) => NO_CHANGE.(serviceId := Some(Some(OfAci(aci))))
    case PhoneValue(phone) => NO_CHANGE.(e164 := Some(Some(phone)))
    case PniValue(pni) => NO_CHANGE.(pni := Some(Some(pni)))
  }

  /** The field that a value goes into is filled, by whatever. */
  predicate HasField(c: Contact, v: Value) {
    match v
    case AciValue(_) => c.serviceId.Some?
    case PhoneValue(_) => c.e164.Some?
    case PniValue(_) => c.pni.Some?
  }

  function PniSlot(pni: Option<Pni>): Option<ServiceId> {
    if pni.Some? then Some(OfPni(pni.value)) else None
  }

  /** A found conversation can take an unused value: the field is free, or holds a mere PNI. */
  predicate Suits(c: Contact, unused: Value, pni: Option<Pni>) {
    !HasField(c, unused) || (unused.AciValue? && (c.serviceId == PniSlot(pni) || SlotIsPni(c)))
  }

  function NewContact(v: Value): Contact {
    match v
    case AciValue(aci) => Contact(Some(OfAci(aci)), None, None)
    case PhoneValue(phone) => Contact(None, Some(phone), None)
    case PniValue(pni) => Contact(Some(OfPni(pni)), None, None)
  }

  predicate Fits(s: Merge) {
    s.target.Some? ==> s.target.value in s.book.contacts
  }

  // ----- the steps of the loop -----

  /** Chooses the found conversation, or a new one, as target for the first unused value. */
  function Choose(s: Merge, found: Id, unused: Value, pni: Option<Pni>): (r: Merge)
    requires Fits(s) && found in s.book.contacts
    ensures Fits(r) && r.target.Some? && found in r.book.contacts
    ensures r.unused == s.unused && r.handed == s.handed && s.book.contacts.Keys <= r.book.contacts.Keys
  {
    if s.target.Some? then s
    else if Suits(s.book.contacts[found], unused, pni) then s.(target := Some(found))
    else if Lookup(s.book, unused).Some? && Lookup(s.book, unused).value in s.book.contacts
    then s.(target := Lookup(s.book, unused))
    else s.(book := AddContact(s.book, NewContact(unused)), target := Some(s.book.nextId))
  }

  function UseOne(s: Merge, found: Id, unused: Value, pni: Option<Pni>): (r: Merge)
    requires Fits(s) && found in s.book.contacts
    ensures Fits(r) && s.book.contacts.Keys <= r.book.contacts.Keys
  {
    var s' := Choose(s, found, unused, pni);
    s'.(book := Apply(s'.book, s'.target.value, SetTo(unused)))
  }

  function UseAll(s: Merge, found: Id, unused: seq<Value>, pni: Option<Pni>): (r: Merge)
    requires Fits(s) && found in s.book.contacts
    ensures Fits(r) && s.book.contacts.Keys <= r.book.contacts.Keys
    decreases |unused|
  {
    if unused == [] then s else UseAll(UseOne(s, found, unused[0], pni), found, unused[1..], pni)
  }

  /** What is taken off a found conversation that is not the target: the value, and the PNI if it is
      in the service id slot alone. */
  function TakeOff(c: Contact, v: Value, pni: Option<Pni>): Change {
    match v
    case AciValue(_) => NO_CHANGE.(serviceId := Some(None))
    case PhoneValue(_) => Change(if c.serviceId == PniSlot(pni) then Some(None) else None, Some(None), None)
    case PniValue(_) => Change(if c.serviceId == PniSlot(pni) then Some(None) else None, None, Some(None))
  }

  /** Moves the value from the found conversation to the target, first off the one and then onto the
      other; the found one is handed over once it has no identifier left. */
  function Claim(s: Merge, found: Id, v: Value, pni: Option<Pni>): (r: Merge)
    requires Fits(s) && found in s.book.contacts
    ensures Fits(r) && s.book.contacts.Keys == r.book.contacts.Keys
  {
    if s.target.None? then s.(target := Some(found))
    else if s.target.value != found then
      var b1 := Apply(s.book, found, TakeOff(s.book.contacts[found], v, pni));
      var gone := Empty(b1.contacts[found]);
      s.(book := Apply(b1, s.target.value, SetTo(v)), handed := s.handed + if gone then [found] else [])
    else if !HasField(s.book.contacts[found], v) then s.(book := Apply(s.book, found, SetTo(v)))
    else s
  }

  predicate ItemFits(item: Item, b: Book) {
    item.found.Some? ==> item.found.value in b.contacts
  }

  function Step(s: Merge, item: Item, pni: Option<Pni>): (r: Merge)
    requires Fits(s) && ItemFits(item, s.book)
    ensures Fits(r) && s.book.contacts.Keys <= r.book.contacts.Keys
  {
    if item.value.None? then s
    else if item.found.None? then
      if s.target.Some? then s.(book := Apply(s.book, s.target.value, SetTo(item.value.value)))
      else s.(unused := s.unused + [item.value.value])
    else Claim(UseAll(s, item.found.value, s.unused, pni).(unused := []), item.found.value, item.value.value, pni)
  }

  function StepAll(s: Merge, items: seq<Item>, pni: Option<Pni>): (r: Merge)
    requires Fits(s) && forall i :: 0 <= i < |items| ==> ItemFits(items[i], s.book)
    ensures Fits(r)
    decreases |items|
  {
    if items == [] then s else
    var s' := Step(s, items[0], pni);
    assert forall i :: 0 <= i < |items| && items[i].found.Some? ==> items[i].found.value in s'.book.contacts.Keys by {
      assert forall i :: 0 <= i < |items| ==> ItemFits(items[i], s.book);
    }
    StepAll(s', items[1..], pni)
  }

  // ----- the whole operation -----

  datatype Merged = Merged(book: Book, conversation: Id, handed: seq<Id>)

  function AciArg(aci: Option<Aci>): Option<Value> { if aci.Some? then Some(AciValue(aci.value)) else None }
  function PhoneArg(e164: Option<Phone>): Option<Value> { if e164.Some? then Some(PhoneValue(e164.value)) else None }
  function PniArg(pni: Option<Pni>): Option<Value> { if pni.Some? then Some(PniValue(pni.value)) else None }

  function ItemFor(b: Book, v: Option<Value>): Item {
    Item(v, if v.Some? then Lookup(b, v.value) else None)
  }

  function Items(b: Book, aci: Option<Aci>, e164: Option<Phone>, pni: Option<Pni>): seq<Item> {
    [ItemFor(b, AciArg(aci)), ItemFor(b, PhoneArg(e164)), ItemFor(b, PniArg(pni))]
  }

  lemma ItemsFit(b: Book, aci: Option<Aci>, e164: Option<Phone>, pni: Option<Pni>)
    requires Good(b)
    ensures forall i :: 0 <= i < 3 ==> ItemFits(Items(b, aci, e164, pni)[i], b)
  {
  }

  /** A conversation with all the values; without an ACI, the PNI goes in the service id slot. */
  function WithAll(aci: Option<Aci>, e164: Option<Phone>, pni: Option<Pni>): Contact {
    Contact(if aci.Some? then Some(OfAci(aci.value)) else PniSlot(pni), e164, pni)
  }

  /** The value under which a conversation with all the values is looked for once more. */
  function Identifier(aci: Option<Aci>, e164: Option<Phone>, pni: Option<Pni>): Option<Value> {
    if aci.Some? then AciArg(aci) else if pni.Some? then PniArg(pni) else PhoneArg(e164)
  }

  /** Without a single value the source throws. */
  function MergeContacts(b: Book, aci: Option<Aci>, e164: Option<Phone>, pni: Option<Pni>): Option<Merged>
    requires Good(b)
  {
    var identifier := Identifier(aci, e164, pni);
    if identifier.None? then None else
    ItemsFit(b, aci, e164, pni);
    var s := StepAll(Merge(b, None, [], []), Items(b, aci, e164, pni), pni);
    if s.target.Some? then Some(Merged(s.book, s.target.value, s.handed))
    else if Lookup(s.book, identifier.value).Some? then
      Some(Merged(s.book, Lookup(s.book, identifier.value).value, s.handed))
    else Some(Merged(AddContact(s.book, WithAll(aci, e164, pni)), s.book.nextId, s.handed))
  }

  // ----- the controller -----

  /** The collection of contacts with its lookup tables, updated in place. */
  class ConversationController {
    var contacts: map<Id, Contact>
    var byServiceId: map<ServiceId, Id>
    var byE164: map<Phone, Id>
    var byPni: map<Pni, Id>
    var nextId: Id

    constructor ()
      ensures Snapshot() == Book(map[], map[], map[], map[], 0) && Good(Snapshot())
    {
      contacts, byServiceId, byE164, byPni, nextId := map[], map[], map[], map[], 0;
    }

    function Snapshot(): Book
      reads this
    {
      Book(contacts, byServiceId, byE164, byPni, nextId)
    }

    /** The listener on changed identifiers. */
    method IdUpdated(id: Id)
      requires id in contacts
      modifies `byServiceId, `byE164, `byPni
      ensures Snapshot() == Relist(old(Snapshot()), id)
    {
      var c := contacts[id];
      if c.e164.Some? {
        byE164 := byE164[c.e164.value := id];
      }
      if c.serviceId.Some? {
        byServiceId := byServiceId[c.serviceId.value := id];
      }
      if c.pni.Some? {
        byPni := byPni[c.pni.value := id];
      }
    }

    /** The three updates of what a change implies, each of which clears the old entry and lists the
        contact anew. */
    method ApplyChange(id: Id, suggested: Change)
      requires id in contacts
      modifies this
      ensures Snapshot() == Apply(old(Snapshot()), id, suggested)
    {
      var change := Implied(contacts[id], suggested);
      if change.serviceId.Some? && contacts[id].serviceId != change.serviceId.value {
        byServiceId := Without(byServiceId, contacts[id].serviceId);
        contacts := contacts[id := contacts[id].(serviceId := change.serviceId.value)];
        IdUpdated(id);
      }
      if change.e164.Some? && contacts[id].e164 != change.e164.value {
        byE164 := Without(byE164, contacts[id].e164);
        contacts := contacts[id := contacts[id].(e164 := change.e164.value)];
        IdUpdated(id);
      }
      if change.pni.Some? && contacts[id].pni != change.pni.value {
        byPni := Without(byPni, contacts[id].pni);
        contacts := contacts[id := contacts[id].(pni := change.pni.value)];
        IdUpdated(id);
      }
    }

    method Add(c: Contact) returns (id: Id)
      modifies this
      ensures id == old(nextId) && Snapshot() == AddContact(old(Snapshot()), c)
    {
      id := nextId;
      contacts := contacts[id := c];
      nextId := nextId + 1;
      IdUpdated(id);
    }

    /** Applies the unused values to the target, which the first of them chooses. */
    method UseUnused(found: Id, unused: seq<Value>, pni: Option<Pni>, chosen: Option<Id>, ghost handed: seq<Id>)
      returns (target: Option<Id>)
      requires found in contacts && (chosen.Some? ==> chosen.value in contacts)
      modifies this
      ensures Merge(Snapshot(), target, unused, handed) ==
                UseAll(Merge(old(Snapshot()), chosen, unused, handed), found, unused, pni)
    {
      target := chosen;
      ghost var start := Merge(Snapshot(), chosen, unused, handed);
      for i := 0 to |unused|
        invariant found in contacts && (target.Some? ==> target.value in contacts)
        invariant UseAll(Merge(Snapshot(), target, unused, handed), found, unused[i..], pni)
               == UseAll(start, found, unused, pni)
      {
        assert unused[i..][0] == unused[i] && unused[i..][1..] == unused[i + 1..];
        if target.None? {
          if Suits(contacts[found], unused[i], pni) {
            target := Some(found);
          } else if Lookup(Snapshot(), unused[i]).Some? && Lookup(Snapshot(), unused[i]).value in contacts {
            target := Lookup(Snapshot(), unused[i]);
          } else {
            var id := Add(NewContact(unused[i]));
            target := Some(id);
          }
        }
        ApplyChange(target.value, SetTo(unused[i]));
      }
      assert unused[|unused|..] == [];
    }

    /** One turn of the loop over the matches. */
    method TakeItem(item: Item, pni: Option<Pni>, chosen: Option<Id>, waiting: seq<Value>, merged: seq<Id>)
      returns (target: Option<Id>, unused: seq<Value>, handed: seq<Id>)
      requires ItemFits(item, Snapshot()) && (chosen.Some? ==> chosen.value in contacts)
      modifies this
      ensures Merge(Snapshot(), target, unused, handed) ==
                Step(Merge(old(Snapshot()), chosen, waiting, merged), item, pni)
    {
      target, unused, handed := chosen, waiting, merged;
      if item.value.None? {
        return;
      }
      var v := item.value.value;
      if item.found.None? {
        if target.Some? {
          ApplyChange(target.value, SetTo(v));
        } else {
          unused := unused + [v];
        }
        return;
      }
      var found := item.found.value;
      target := UseUnused(found, unused, pni, target, handed);
      unused := [];
      if target.None? {
        target := Some(found);
      } else if target.value != found {
        ApplyChange(found, TakeOff(contacts[found], v, pni));
        if Empty(contacts[found]) {
          handed := handed + [found];
        }
        ApplyChange(target.value, SetTo(v));
      } else if !HasField(contacts[found], v) {
        ApplyChange(found, SetTo(v));
      }
    }

    /** Looks up the three values, then goes through them in order. The conversations handed over are
        those that the source merges into the result. */
    method MaybeMergeContacts(aci: Option<Aci>, e164: Option<Phone>, pni: Option<Pni>)
      returns (conversation: Option<Id>, handed: seq<Id>)
      requires Good(Snapshot())
      modifies this
      ensures var r := MergeContacts(old(Snapshot()), aci, e164, pni);
              if r.None? then conversation == None && Snapshot() == old(Snapshot())
              else Merged(Snapshot(), r.value.conversation, handed) == r.value
                   && conversation == Some(r.value.conversation)
    {
      hide Step, Good, Lookup, Relist;
      conversation, handed := None, [];
      var identifier := Identifier(aci, e164, pni);
      if identifier.None? {
        return;
      }
      var matches := Items(Snapshot(), aci, e164, pni);
      ItemsFit(Snapshot(), aci, e164, pni);
      var unused: seq<Value> := [];
      ghost var start := Merge(Snapshot(), None, [], []);
      for i := 0 to 3
        invariant forall k :: 0 <= k < 3 ==> ItemFits(matches[k], Snapshot())
        invariant conversation.Some? ==> conversation.value in contacts
        invariant StepAll(Merge(Snapshot(), conversation, unused, handed), matches[i..], pni)
               == StepAll(start, matches, pni)
      {
        assert matches[i..][0] == matches[i] && matches[i..][1..] == matches[i + 1..];
        ghost var before := Snapshot().contacts.Keys;
        conversation, unused, handed := TakeItem(matches[i], pni, conversation, unused, handed);
        assert before <= Snapshot().contacts.Keys;
      }
      assert matches[3..] == [];
      if conversation.None? {
        conversation := Lookup(Snapshot(), identifier.value);
        if conversation.None? {
          var id := Add(WithAll(aci, e164, pni));
          conversation := Some(id);
        }
      }
    }
  }
}
