/** Contacts, the tables by which they are looked up, and changes of their identifiers. */
module Contacts {
  import opened Options
  import opened ServiceIds

  type Id = nat
  type Phone = nat

  /** A PNI may sit in the service id slot of a contact whose ACI is not known. */
  datatype Contact = Contact(serviceId: Option<ServiceId>, e164: Option<Phone>, pni: Option<Pni>)

  /** All conversations with people, with the three lookup tables. Ids are given out in order. */
  datatype Book = Book(
    contacts: map<Id, Contact>,
    byServiceId: map<ServiceId, Id>, byE164: map<Phone, Id>, byPni: map<Pni, Id>,
    nextId: Id)

  predicate Empty(c: Contact) {
    c.serviceId.None? && c.e164.None? && c.pni.None?
  }

  /** The service id slot and the PNI field have the same content. */
  predicate SlotIsPni(c: Contact) {
    c.serviceId == if c.pni.Some? then Some(OfPni(c.pni.value)) else None
  }

  // ----- single updates -----

  function Without<K, V>(m: map<K, V>, k: Option<K>): map<K, V> {
    if k.Some? then m - {k.value} else m
  }

  function With<K, V>(m: map<K, V>, k: Option<K>, v: V): map<K, V> {
    if k.Some? then m[k.value := v] else m
  }

  /** What listeners do when an identifier of a contact has changed: list it under all it has. */
  function Relist(b: Book, id: Id): Book
    requires id in b.contacts
  {
    var c := b.contacts[id];
    b.(byServiceId := With(b.byServiceId, c.serviceId, id), byE164 := With(b.byE164, c.e164, id),
       byPni := With(b.byPni, c.pni, id))
  }

  function UpdateServiceId(b: Book, id: Id, v: Option<ServiceId>): (r: Book)
    requires id in b.contacts
    ensures r.contacts.Keys == b.contacts.Keys && r.nextId == b.nextId
  {
    var c := b.contacts[id];
    if c.serviceId == v then b else
    Relist(b.(contacts := b.contacts[id := c.(serviceId := v)], byServiceId := Without(b.byServiceId, c.serviceId)), id)
  }

  function UpdateE164(b: Book, id: Id, v: Option<Phone>): (r: Book)
    requires id in b.contacts
    ensures r.contacts.Keys == b.contacts.Keys && r.nextId == b.nextId
  {
    var c := b.contacts[id];
    if c.e164 == v then b else
    Relist(b.(contacts := b.contacts[id := c.(e164 := v)], byE164 := Without(b.byE164, c.e164)), id)
  }

  function UpdatePni(b: Book, id: Id, v: Option<Pni>): (r: Book)
    requires id in b.contacts
    ensures r.contacts.Keys == b.contacts.Keys && r.nextId == b.nextId
  {
    var c := b.contacts[id];
    if c.pni == v then b else
    Relist(b.(contacts := b.contacts[id := c.(pni := v)], byPni := Without(b.byPni, c.pni)), id)
  }

  // ----- changes of several identifiers -----

  /** For each field: not mentioned, or its new value. */
  datatype Change = Change(
    serviceId: Option<Option<ServiceId>>, e164: Option<Option<Phone>>, pni: Option<Option<Pni>>)

  const NO_CHANGE := Change(None, None, None)

  /** Adds what a change implies: a new phone number drops the PNI, a new PNI also goes where only a
      PNI or nothing was, and a dropped PNI leaves the service id slot too. */
  function Implied(c: Contact, suggested: Change): Change {
    var pni := if suggested.e164.Some? && (suggested.pni.None? || suggested.pni.value.None?) then Some(None)
               else suggested.pni;
    var namesId := suggested.serviceId.Some? && suggested.serviceId.value.Some?;
    var serviceId :=
      if pni.Some? && pni.value.Some? && !namesId && (c.serviceId.None? || SlotIsPni(c))
      then Some(Some(OfPni(pni.value.value)))
      else if pni.Some? && pni.value.None? && !namesId && SlotIsPni(c) then Some(None)
      else suggested.serviceId;
    Change(serviceId, suggested.e164, pni)
  }

  function Changed<T>(prior: Option<T>, change: Option<Option<T>>): Option<T> {
    if change.Some? then change.value else prior
  }

  /** The contact after a change. */
  function After(c: Contact, suggested: Change): Contact {
    var change := Implied(c, suggested);
    Contact(Changed(c.serviceId, change.serviceId), Changed(c.e164, change.e164), Changed(c.pni, change.pni))
  }

  /** The source's three updates, in its order. */
  function Apply(b: Book, id: Id, suggested: Change): (r: Book)
    requires id in b.contacts
    ensures r.contacts.Keys == b.contacts.Keys && r.nextId == b.nextId
  {
    var change := Implied(b.contacts[id], suggested);
    var b1 := if change.serviceId.Some? then UpdateServiceId(b, id, change.serviceId.value) else b;
    var b2 := if change.e164.Some? then UpdateE164(b1, id, change.e164.value) else b1;
    if change.pni.Some? then UpdatePni(b2, id, change.pni.value) else b2
  }

  /** Adds a contact none of whose identifiers is listed yet. */
  function AddContact(b: Book, c: Contact): Book {
    Relist(b.(contacts := b.contacts[b.nextId := c], nextId := b.nextId + 1), b.nextId)
  }

  // ----- tables that tell the truth -----

  predicate Listed<K>(table: map<K, Id>, contacts: map<Id, Contact>, slot: Contact -> Option<K>) {
    && (forall k :: k in table ==> table[k] in contacts && slot(contacts[table[k]]) == Some(k))
    && (forall id :: id in contacts && slot(contacts[id]).Some? ==>
          slot(contacts[id]).value in table && table[slot(contacts[id]).value] == id)
  }

  function ServiceIdOf(c: Contact): Option<ServiceId> { c.serviceId }
  function E164Of(c: Contact): Option<Phone> { c.e164 }
  function PniOf(c: Contact): Option<Pni> { c.pni }

  predicate HoldsPni(c: Contact, pni: Pni) {
    c.pni == Some(pni) || c.serviceId == Some(OfPni(pni))
  }

  predicate Uncrossed(contacts: map<Id, Contact>) {
    forall i, j :: i in contacts && j in contacts && i != j && contacts[i].pni.Some? ==>
      contacts[j].serviceId != Some(OfPni(contacts[i].pni.value))
  }

  /** Each table lists exactly who has an identifier, so that nobody shares one; and a PNI is not in
      one slot of one contact and the other slot of another. */
  predicate Good(b: Book) {
    && Listed(b.byServiceId, b.contacts, ServiceIdOf) && Listed(b.byE164, b.contacts, E164Of)
    && Listed(b.byPni, b.contacts, PniOf)
    && Uncrossed(b.contacts)
    && (forall id :: id in b.contacts ==> id < b.nextId)
  }

  /** Nobody but `id` holds an identifier of `c`. */
  predicate Free(b: Book, id: Id, c: Contact) {
    forall other :: other in b.contacts && other != id ==>
      && (c.serviceId.Some? ==> b.contacts[other].serviceId != c.serviceId)
      && (c.e164.Some? ==> b.contacts[other].e164 != c.e164)
      && (c.pni.Some? ==> b.contacts[other].pni != c.pni)
      && (c.pni.Some? ==> b.contacts[other].serviceId != Some(OfPni(c.pni.value)))
      && (c.serviceId.Some? && c.serviceId.value.OfPni? ==> b.contacts[other].pni != Some(c.serviceId.value.pni))
  }

  /** A table after one contact changed what it is listed under, or kept it. */
  lemma TableUpdated<K>(table: map<K, Id>, contacts: map<Id, Contact>, slot: Contact -> Option<K>, id: Id, c: Contact)
    requires Listed(table, contacts, slot)
    requires slot(c).Some? ==> forall other :: other in contacts && other != id ==> slot(contacts[other]) != slot(c)
    ensures id in contacts ==>
              Listed(With(Without(table, slot(contacts[id])), slot(c), id), contacts[id := c], slot)
    ensures id in contacts && slot(contacts[id]) == slot(c) ==>
              Listed(With(table, slot(c), id), contacts[id := c], slot)
    ensures id !in contacts ==> Listed(With(table, slot(c), id), contacts[id := c], slot)
  {
  }

  lemma StillUncrossed(b: Book, id: Id, c: Contact)
    requires Uncrossed(b.contacts) && Free(b, id, c)
    ensures Uncrossed(b.contacts[id := c])
  {
  }

  /** All tables after the contact `id` changed to `c`: listed anew under what changed or, for a new
      contact, under all it has. */
  lemma TablesUpdated(b: Book, id: Id, c: Contact)
    requires Good(b) && Free(b, id, c)
    ensures Uncrossed(b.contacts[id := c])
    ensures id in b.contacts ==>
              var o := b.contacts[id];
              && Listed(With(Without(b.byServiceId, o.serviceId), c.serviceId, id), b.contacts[id := c], ServiceIdOf)
              && Listed(With(Without(b.byE164, o.e164), c.e164, id), b.contacts[id := c], E164Of)
              && Listed(With(Without(b.byPni, o.pni), c.pni, id), b.contacts[id := c], PniOf)
    ensures var m := b.contacts;
            && (id !in m || m[id].serviceId == c.serviceId ==>
                  Listed(With(b.byServiceId, c.serviceId, id), m[id := c], ServiceIdOf))
            && (id !in m || m[id].e164 == c.e164 ==> Listed(With(b.byE164, c.e164, id), m[id := c], E164Of))
            && (id !in m || m[id].pni == c.pni ==> Listed(With(b.byPni, c.pni, id), m[id := c], PniOf))
  {
    hide Listed, With, Without, Uncrossed;
    TableUpdated(b.byServiceId, b.contacts, ServiceIdOf, id, c);
    TableUpdated(b.byE164, b.contacts, E164Of, id, c);
    TableUpdated(b.byPni, b.contacts, PniOf, id, c);
    StillUncrossed(b, id, c);
  }

  lemma ServiceIdUpdated(b: Book, id: Id, v: Option<ServiceId>)
    requires Good(b) && id in b.contacts && Free(b, id, b.contacts[id].(serviceId := v))
    ensures Good(UpdateServiceId(b, id, v)) && UpdateServiceId(b, id, v).nextId == b.nextId
    ensures UpdateServiceId(b, id, v).contacts == b.contacts[id := b.contacts[id].(serviceId := v)]
  {
    hide Listed, Free, Uncrossed, With, Without;
    TablesUpdated(b, id, b.contacts[id].(serviceId := v));
  }

  lemma E164Updated(b: Book, id: Id, v: Option<Phone>)
    requires Good(b) && id in b.contacts && Free(b, id, b.contacts[id].(e164 := v))
    ensures Good(UpdateE164(b, id, v)) && UpdateE164(b, id, v).nextId == b.nextId
    ensures UpdateE164(b, id, v).contacts == b.contacts[id := b.contacts[id].(e164 := v)]
  {
    hide Listed, Free, Uncrossed, With, Without;
    TablesUpdated(b, id, b.contacts[id].(e164 := v));
  }

  lemma PniUpdated(b: Book, id: Id, v: Option<Pni>)
    requires Good(b) && id in b.contacts && Free(b, id, b.contacts[id].(pni := v))
    ensures Good(UpdatePni(b, id, v)) && UpdatePni(b, id, v).nextId == b.nextId
    ensures UpdatePni(b, id, v).contacts == b.contacts[id := b.contacts[id].(pni := v)]
  {
    hide Listed, Free, Uncrossed, With, Without;
    TablesUpdated(b, id, b.contacts[id].(pni := v));
  }

  lemma OwnFree(b: Book, id: Id)
    requires Good(b) && id in b.contacts
    ensures Free(b, id, b.contacts[id])
  {
  }

  /** A part of what is free is free. */
  lemma MixFree(b: Book, id: Id, c: Contact, d: Contact, e: Contact)
    requires Free(b, id, c) && Free(b, id, d)
    requires e.serviceId == c.serviceId || e.serviceId == d.serviceId
    requires e.e164 == c.e164 || e.e164 == d.e164
    requires e.pni == c.pni || e.pni == d.pni
    ensures Free(b, id, e)
  {
  }

  /** A change to identifiers that nobody else holds keeps the tables true and touches no other
      contact. */
  lemma Applied(b: Book, id: Id, suggested: Change)
    requires Good(b) && id in b.contacts && Free(b, id, After(b.contacts[id], suggested))
    ensures Good(Apply(b, id, suggested)) && Apply(b, id, suggested).nextId == b.nextId
    ensures Apply(b, id, suggested).contacts == b.contacts[id := After(b.contacts[id], suggested)]
  {
    hide Good, Free, Implied, UpdateServiceId, UpdateE164, UpdatePni;
    var c, change := b.contacts[id], Implied(b.contacts[id], suggested);
    var d := After(c, suggested);
    OwnFree(b, id);
    var c1 := c.(serviceId := d.serviceId);
    var c2 := c1.(e164 := d.e164);
    MixFree(b, id, c, d, c1);
    MixFree(b, id, c, d, c2);
    MixFree(b, id, c, d, d);
    var b1 := if change.serviceId.Some? then UpdateServiceId(b, id, change.serviceId.value) else b;
    if change.serviceId.Some? {
      ServiceIdUpdated(b, id, change.serviceId.value);
    }
    SameContactsFree(b, b1, id, c2);
    var b2 := if change.e164.Some? then UpdateE164(b1, id, change.e164.value) else b1;
    if change.e164.Some? {
      E164Updated(b1, id, change.e164.value);
    }
    SameContactsFree(b, b2, id, d);
    if change.pni.Some? {
      PniUpdated(b2, id, change.pni.value);
    }
  }

  lemma SameContactsFree(b: Book, b': Book, id: Id, c: Contact)
    requires Free(b, id, c) && id in b.contacts && b'.contacts.Keys == b.contacts.Keys
    requires forall other :: other in b.contacts && other != id ==> b'.contacts[other] == b.contacts[other]
    ensures Free(b', id, c)
  {
  }

  lemma Added(b: Book, c: Contact)
    requires Good(b) && Free(b, b.nextId, c)
    ensures Good(AddContact(b, c)) && b.nextId !in b.contacts
    ensures AddContact(b, c).contacts == b.contacts[b.nextId := c]
  {
    hide Listed, Free, Uncrossed, With, Without;
    TablesUpdated(b, b.nextId, c);
  }
}
