/** Which contact a merge returns, and exactly what it makes of every contact. */
module ContactMergeExact {
  import opened Options
  import opened ServiceIds
  import opened Contacts
  import opened ContactMerge
  import opened ContactMergeLaws
  import opened ContactMergeOutcome
  import opened ContactMergeRuns

  const NOBODY := Contact(None, None, None)

  // ----- one change -----

  /** The service id slot holds the PNI of the contact itself. */
  predicate OwnPniInSlot(c: Contact) {
    c.pni.Some? && c.serviceId == Some(OfPni(c.pni.value))
  }

  function WithAci(c: Contact, aci: Aci): Contact {
    Contact(Some(OfAci(aci)), c.e164, c.pni)
  }

  /** A new number drops the PNI that came with the old one. */
  function WithPhone(c: Contact, phone: Phone): Contact {
    Contact(if OwnPniInSlot(c) then None else c.serviceId, Some(phone), None)
  }

  /** A PNI also goes in the service id slot, unless something else is there. */
  function WithPni(c: Contact, pni: Pni): Contact {
    Contact(if c.serviceId.None? || OwnPniInSlot(c) then Some(OfPni(pni)) else c.serviceId, c.e164, Some(pni))
  }

  predicate HoldsInSlot(c: Contact, pni: Option<Pni>) {
    pni.Some? && c.serviceId == Some(OfPni(pni.value))
  }

  /** Giving up the number also gives up the PNI, and any PNI at issue in the service id slot. */
  function WithoutPhone(c: Contact, pni: Option<Pni>): Contact {
    Contact(if OwnPniInSlot(c) || HoldsInSlot(c, pni) then None else c.serviceId, None, None)
  }

  function WithoutPni(c: Contact, pni: Option<Pni>): Contact {
    Contact(if OwnPniInSlot(c) || HoldsInSlot(c, pni) then None else c.serviceId, c.e164, None)
  }

  lemma ChangesAre(c: Contact, aci: Aci, phone: Phone, pni: Pni, other: Option<Pni>)
    ensures After(c, SetTo(AciValue(aci))) == WithAci(c, aci)
    ensures After(c, SetTo(PhoneValue(phone))) == WithPhone(c, phone)
    ensures After(c, SetTo(PniValue(pni))) == WithPni(c, pni)
    ensures After(c, TakeOff(c, AciValue(aci), other)) == c.(serviceId := None)
    ensures After(c, TakeOff(c, PhoneValue(phone), other)) == WithoutPhone(c, other)
    ensures After(c, TakeOff(c, PniValue(pni), other)) == WithoutPni(c, other)
  {
  }

  /** Any suggested change, field by field: a number without a PNI drops the PNI; a PNI that comes goes in
      a slot with nothing or the own PNI in it, and one that goes leaves it, unless the change puts
      something else there. */
  lemma AnyChange(c: Contact, suggested: Change)
    ensures var d := After(c, suggested);
            var named := suggested.serviceId.Some? && suggested.serviceId.value.Some?;
            var dropped := suggested.e164.Some? && !(suggested.pni.Some? && suggested.pni.value.Some?);
            var free := c.serviceId.None? || OwnPniInSlot(c);
            && d.e164 == (match suggested.e164 case None => c.e164 case Some(v) => v)
            && d.pni == (if dropped then None else match suggested.pni case None => c.pni case Some(v) => v)
            && (named ==> d.serviceId == suggested.serviceId.value)
            && (!named && suggested.pni.Some? && suggested.pni.value.Some? && free ==>
                  d.serviceId == Some(OfPni(suggested.pni.value.value)))
            && (!named && d.pni.None? && (suggested.e164.Some? || suggested.pni.Some?) && OwnPniInSlot(c) ==>
                  d.serviceId == None)
            && (suggested.serviceId.None? && !free ==> d.serviceId == c.serviceId)
            && (suggested.serviceId == Some(None) && !free ==> d.serviceId == None)
  {
  }

  // ----- the choice -----

  function FoundBy(b: Book, v: Option<Value>): Option<Id> {
    if v.Some? then Lookup(b, v.value) else None
  }

  /** A contact can take an ACI: nothing is in its service id slot, or the PNI at issue, or its own. */
  predicate TakesAci(c: Contact, pni: Option<Pni>) {
    c.serviceId.None? || HoldsInSlot(c, pni) || OwnPniInSlot(c)
  }

  /** Who is returned: the one with the ACI; else the one with the number, unless it cannot take the ACI;
      else the one with the PNI, unless it cannot take the ACI or, if none is given, has another number;
      and in every other case a new contact. */
  ghost function Chosen(b: Book, aci: Option<Aci>, e164: Option<Phone>, pni: Option<Pni>): Id
    requires Good(b)
  {
    var byAci, byPhone, byPni := FoundBy(b, AciArg(aci)), FoundBy(b, PhoneArg(e164)), FoundBy(b, PniArg(pni));
    FoundAreThere(b, aci, e164, pni);
    if byAci.Some? then byAci.value
    else if byPhone.Some? then
      if aci.None? || TakesAci(b.contacts[byPhone.value], pni) then byPhone.value else b.nextId
    else if byPni.Some? then
      var c := b.contacts[byPni.value];
      if aci.Some? then (if TakesAci(c, pni) then byPni.value else b.nextId)
      else if e164.None? || c.e164.None? then byPni.value
      else b.nextId
    else b.nextId
  }

  lemma FoundAreThere(b: Book, aci: Option<Aci>, e164: Option<Phone>, pni: Option<Pni>)
    requires Good(b)
    ensures FoundBy(b, AciArg(aci)).Some? ==> FoundBy(b, AciArg(aci)).value in b.contacts
    ensures FoundBy(b, PhoneArg(e164)).Some? ==> FoundBy(b, PhoneArg(e164)).value in b.contacts
    ensures FoundBy(b, PniArg(pni)).Some? ==> FoundBy(b, PniArg(pni)).value in b.contacts
    ensures b.nextId !in b.contacts
  {
    ItemsFit(b, aci, e164, pni);
    NextIsNew(b);
  }

  function ContactOr(contacts: map<Id, Contact>, id: Id): Contact {
    if id in contacts then contacts[id] else NOBODY
  }

  /** The chosen contact after the ACI and the number: it gets each that it was not found by. */
  function ChosenMid(c: Contact, aci: Option<Aci>, e164: Option<Phone>, hasAci: bool, hasPhone: bool): Contact {
    var c1 := if aci.Some? && !hasAci then WithAci(c, aci.value) else c;
    if e164.Some? && !hasPhone then WithPhone(c1, e164.value) else c1
  }

  /** And after the PNI, which it gets unless it was found by it and still has a PNI, or was found by
      nothing else. */
  function ChosenEnd(c: Contact, pni: Option<Pni>, hasPni: bool, alone: bool): Contact {
    if pni.Some? && (!hasPni || (c.pni.None? && !alone)) then WithPni(c, pni.value) else c
  }

  /** Any other contact gives up the number and the PNI that it was found by. */
  function OtherMidIs(c: Contact, byPhone: bool, pni: Option<Pni>): Contact {
    if byPhone then WithoutPhone(c, pni) else c
  }

  function OtherEndIs(c: Contact, byPni: bool, pni: Option<Pni>): Contact {
    if byPni then WithoutPni(c, pni) else c
  }

  // ----- after the ACI and the number -----

  /** The state once a target is chosen, before the PNI. */
  ghost predicate ExactMid(b: Book, s: Merge, t: Id, aci: Option<Aci>, e164: Option<Phone>, pni: Option<Pni>) {
    var byAci, byPhone := FoundBy(b, AciArg(aci)), FoundBy(b, PhoneArg(e164));
    && s.target == Some(t) && s.unused == []
    && s.book.contacts.Keys == b.contacts.Keys + {t}
    && s.book.contacts[t] == ChosenMid(ContactOr(b.contacts, t), aci, e164, byAci == Some(t), byPhone == Some(t))
    && (forall id :: id in b.contacts && id != t ==>
          s.book.contacts[id] == OtherMidIs(b.contacts[id], byPhone == Some(id), pni))
    && s.handed == (if byPhone.Some? && byPhone != Some(t) && byPhone.value in b.contacts
                       && WithoutPhone(b.contacts[byPhone.value], pni) == NOBODY then [byPhone.value] else [])
    && s.book.nextId == b.nextId + if t in b.contacts then 0 else 1
  }

  /** Setting a value, as seen from the contacts. */
  lemma SetIs(b: Book, id: Id, v: Value)
    requires id in b.contacts
    ensures var c := b.contacts[id];
            var d := match v
                     case AciValue(aci) => WithAci(c, aci)
                     case PhoneValue(phone) => WithPhone(c, phone)
                     case PniValue(pni) => WithPni(c, pni);
            Apply(b, id, SetTo(v)).contacts == b.contacts[id := d] && Apply(b, id, SetTo(v)).nextId == b.nextId
  {
    ApplyContacts(b, id, SetTo(v));
    match v
    case AciValue(aci) => ChangesAre(b.contacts[id], aci, 0, 0, None);
    case PhoneValue(phone) => ChangesAre(b.contacts[id], 0, phone, 0, None);
    case PniValue(pni) => ChangesAre(b.contacts[id], 0, 0, pni, None);
  }

  /** A match that is not the target gives the value up to it. */
  lemma ClaimIs(s: Merge, found: Id, v: Value, pni: Option<Pni>)
    requires Fits(s) && s.target.Some? && s.target.value != found && found in s.book.contacts && !v.AciValue?
    ensures var r, t := Claim(s, found, v, pni), s.target.value;
            var c, d := s.book.contacts[t], s.book.contacts[found];
            var now := if v.PhoneValue? then WithPhone(c, v.phone) else WithPni(c, v.pni);
            var left := if v.PhoneValue? then WithoutPhone(d, pni) else WithoutPni(d, pni);
            && r.target == s.target && r.unused == s.unused && r.book.nextId == s.book.nextId
            && r.book.contacts == s.book.contacts[found := left][t := now]
            && r.handed == s.handed + if left == NOBODY then [found] else []
  {
    var d := s.book.contacts[found];
    var change := TakeOff(d, v, pni);
    ApplyContacts(s.book, found, change);
    ChangesAre(d, 0, if v.PhoneValue? then v.phone else 0, if v.PniValue? then v.pni else 0, pni);
    var b1 := Apply(s.book, found, change);
    hide Apply, After, TakeOff, SetTo, WithPhone, WithPni, WithoutPhone, WithoutPni, WithAci;
    SetIs(b1, s.target.value, v);
  }

  lemma NewIs(b: Book, v: Value)
    requires Good(b) && !v.PniValue?
    ensures var b1 := AddContact(b, NewContact(v));
            var b' := Apply(b1, b.nextId, SetTo(v));
            && b'.nextId == b.nextId + 1
            && b'.contacts == b.contacts[b.nextId := if v.AciValue? then WithAci(NOBODY, v.aci)
                                                     else WithPhone(NOBODY, v.phone)]
  {
    var b1 := AddContact(b, NewContact(v));
    assert b1.contacts == b.contacts[b.nextId := NewContact(v)];
    hide AddContact, Apply, Good;
    SetIs(b1, b.nextId, v);
  }

  /** A contact can take an ACI exactly if the source's tests say so. */
  lemma SuitsIff(c: Contact, aci: Aci, phone: Phone, pni: Option<Pni>)
    ensures Suits(c, AciValue(aci), pni) <==> TakesAci(c, pni)
    ensures Suits(c, PhoneValue(phone), pni) <==> c.e164.None?
  {
  }

  /** The first unused value chooses the match or a new contact. */
  lemma ChooseIs(b: Book, us: seq<Value>, found: Id, v: Value, pni: Option<Pni>)
    requires Good(b) && found in b.contacts && Lookup(b, v) == None && !v.PniValue?
    ensures var r := UseOne(Merge(b, None, us, []), found, v, pni);
            var takes := if v.AciValue? then TakesAci(b.contacts[found], pni) else b.contacts[found].e164.None?;
            var t := if takes then found else b.nextId;
            var c := ContactOr(b.contacts, t);
            && r.target == Some(t) && r.unused == us && r.handed == []
            && r.book.contacts == b.contacts[t := if v.AciValue? then WithAci(c, v.aci) else WithPhone(c, v.phone)]
            && r.book.nextId == b.nextId + if takes then 0 else 1
  {
    match v
    case AciValue(aci) => SuitsIff(b.contacts[found], aci, 0, pni);
    case PhoneValue(phone) => SuitsIff(b.contacts[found], 0, phone, pni);
    NextIsNew(b);
    SetIs(b, found, v);
    NewIs(b, v);
    hide Apply, AddContact, Good, Lookup, WithAci, WithPhone, TakesAci, Suits;
  }

  /** Who is chosen by the ACI or the number. */
  ghost function ChosenEarly(b: Book, aci: Option<Aci>, e164: Option<Phone>, pni: Option<Pni>): Option<Id>
    requires Good(b)
  {
    var byAci, byPhone := FoundBy(b, AciArg(aci)), FoundBy(b, PhoneArg(e164));
    FoundAreThere(b, aci, e164, pni);
    if byAci.Some? then byAci
    else if byPhone.None? then None
    else if aci.None? || TakesAci(b.contacts[byPhone.value], pni) then byPhone
    else Some(b.nextId)
  }

  /** Nobody else was found by the number. */
  lemma ExactAlone(b: Book, s: Merge, t: Id, aci: Option<Aci>, e164: Option<Phone>, pni: Option<Pni>, c: Contact)
    requires var byAci, byPhone := FoundBy(b, AciArg(aci)), FoundBy(b, PhoneArg(e164));
             && (byPhone.None? || byPhone == Some(t))
             && c == ChosenMid(ContactOr(b.contacts, t), aci, e164, byAci == Some(t), byPhone == Some(t))
    requires s.target == Some(t) && s.unused == [] && s.handed == [] && s.book.contacts == b.contacts[t := c]
    requires s.book.nextId == b.nextId + if t in b.contacts then 0 else 1
    ensures ExactMid(b, s, t, aci, e164, pni)
  {
    hide ChosenMid, Lookup, WithoutPhone;
  }

  /** Somebody else was. */
  lemma ExactBeside(b: Book, s: Merge, t: Id, aci: Option<Aci>, e164: Option<Phone>, pni: Option<Pni>, c: Contact,
                    found: Id)
    requires FoundBy(b, PhoneArg(e164)) == Some(found) && found != t && found in b.contacts
    requires c == ChosenMid(ContactOr(b.contacts, t), aci, e164, FoundBy(b, AciArg(aci)) == Some(t), false)
    requires s.target == Some(t) && s.unused == []
    requires var left := WithoutPhone(b.contacts[found], pni);
             && s.book.contacts == b.contacts[found := left][t := c]
             && s.handed == if left == NOBODY then [found] else []
    requires s.book.nextId == b.nextId + if t in b.contacts then 0 else 1
    ensures ExactMid(b, s, t, aci, e164, pni)
  {
    hide ChosenMid, Lookup, WithoutPhone;
  }

  lemma StepUnmatched(s: Merge, v: Value, pni: Option<Pni>)
    requires Fits(s) && s.target.Some?
    ensures Step(s, Item(Some(v), None), pni) == s.(book := Apply(s.book, s.target.value, SetTo(v)))
  {
  }

  lemma StepMatched(s: Merge, v: Value, found: Id, pni: Option<Pni>)
    requires Fits(s) && found in s.book.contacts && s.unused == []
    ensures Step(s, Item(Some(v), Some(found)), pni) == Claim(s, found, v, pni)
  {
    hide Claim;
  }

  lemma StepMatchedOne(s: Merge, u: Value, v: Value, found: Id, pni: Option<Pni>)
    requires Fits(s) && found in s.book.contacts && s.unused == [u]
    ensures Step(s, Item(Some(v), Some(found)), pni)
              == Claim(UseOne(s, found, u, pni).(unused := []), found, v, pni)
  {
    hide Claim, UseOne;
    UseAllOne(s, found, u, pni);
  }

  /** The number when somebody has the ACI: nobody has the number, ... */
  lemma PhoneNew(b: Book, aci: Aci, phone: Phone, pni: Option<Pni>, t: Id)
    requires Good(b) && Lookup(b, AciValue(aci)) == Some(t) && Lookup(b, PhoneValue(phone)) == None
    ensures t in b.contacts
    ensures ExactMid(b, Step(Merge(b, Some(t), [], []), ItemFor(b, Some(PhoneValue(phone))), pni), t,
                     Some(aci), Some(phone), pni)
  {
    var s := Merge(b, Some(t), [], []);
    FoundAreThere(b, Some(aci), Some(phone), pni);
    hide Apply, Good, Lookup, WithPhone, WithoutPhone, WithAci, ExactMid, Step;
    StepUnmatched(s, PhoneValue(phone), pni);
    SetIs(b, t, PhoneValue(phone));
    ExactAlone(b, Step(s, Item(Some(PhoneValue(phone)), None), pni), t, Some(aci), Some(phone), pni,
               WithPhone(b.contacts[t], phone));
  }

  /** ... the same contact has it, ... */
  lemma PhoneSame(b: Book, aci: Option<Aci>, phone: Phone, pni: Option<Pni>, t: Id, s: Merge)
    requires Good(b) && Lookup(b, PhoneValue(phone)) == Some(t)
    requires aci.Some? ==> Lookup(b, AciValue(aci.value)) == Some(t)
    requires s == Merge(b, s.target, [], []) && (s.target == Some(t) || s.target.None?)
    ensures t in b.contacts
    ensures ExactMid(b, Step(s, ItemFor(b, Some(PhoneValue(phone))), pni), t, aci, Some(phone), pni)
  {
    FoundAreThere(b, aci, Some(phone), pni);
    LookupFinds(b, PhoneValue(phone));
    hide Apply, Good, Lookup, Claim, Only, Nobody, ExactMid, Step;
    StepMatched(s, PhoneValue(phone), t, pni);
    SameClaim(s, t, PhoneValue(phone), pni);
    assert b.contacts[t := b.contacts[t]] == b.contacts;
    ExactAlone(b, s.(target := Some(t)), t, aci, Some(phone), pni, b.contacts[t]);
  }

  /** ... or another one. */
  lemma PhoneElsewhere(b: Book, aci: Aci, phone: Phone, pni: Option<Pni>, t: Id, found: Id)
    requires Good(b) && Lookup(b, AciValue(aci)) == Some(t) && Lookup(b, PhoneValue(phone)) == Some(found) && t != found
    ensures t in b.contacts && found in b.contacts
    ensures ExactMid(b, Step(Merge(b, Some(t), [], []), ItemFor(b, Some(PhoneValue(phone))), pni), t,
                     Some(aci), Some(phone), pni)
  {
    var s := Merge(b, Some(t), [], []);
    FoundAreThere(b, Some(aci), Some(phone), pni);
    hide Apply, Good, Lookup, WithPhone, WithoutPhone, WithAci, Claim, ExactMid, Step;
    StepMatched(s, PhoneValue(phone), found, pni);
    ClaimIs(s, found, PhoneValue(phone), pni);
    ExactBeside(b, Claim(s, found, PhoneValue(phone), pni), t, Some(aci), Some(phone), pni,
                WithPhone(b.contacts[t], phone), found);
  }

  lemma AciAlone(b: Book, aci: Aci, pni: Option<Pni>, t: Id)
    requires Good(b) && Lookup(b, AciValue(aci)) == Some(t)
    ensures t in b.contacts
    ensures ExactMid(b, Step(Merge(b, Some(t), [], []), ItemFor(b, None), pni), t, Some(aci), None, pni)
  {
    FoundAreThere(b, Some(aci), None, pni);
    hide Lookup, ExactMid;
    assert b.contacts[t := b.contacts[t]] == b.contacts;
    ExactAlone(b, Merge(b, Some(t), [], []), t, Some(aci), None, pni, b.contacts[t]);
  }

  /** The number after an ACI that nobody has: its contact takes the ACI, ... */
  lemma PhoneTakesAci(b: Book, aci: Aci, phone: Phone, pni: Option<Pni>, found: Id)
    requires Good(b) && Lookup(b, PhoneValue(phone)) == Some(found) && Lookup(b, AciValue(aci)) == None
    requires found in b.contacts && TakesAci(b.contacts[found], pni)
    ensures ExactMid(b, Step(Merge(b, None, [AciValue(aci)], []), ItemFor(b, Some(PhoneValue(phone))), pni), found,
                     Some(aci), Some(phone), pni)
  {
    var u, v := AciValue(aci), PhoneValue(phone);
    var s := Merge(b, None, [u], []);
    LookupFinds(b, v);
    hide Apply, Good, Lookup, WithPhone, WithoutPhone, WithAci, Claim, Only, Nobody, TakesAci, UseOne, ExactMid, Step;
    ChooseIs(b, [u], found, u, pni);
    StepMatchedOne(s, u, v, found, pni);
    var s' := UseOne(s, found, u, pni).(unused := []);
    AciKeepsPhone(b.contacts[found], aci, phone);
    SameClaim(s', found, v, pni);
    ExactAlone(b, s', found, Some(aci), Some(phone), pni, WithAci(b.contacts[found], aci));
  }

  lemma SetTwice<K, V>(m: map<K, V>, k: K, v: V, j: K, w: V, last: V)
    ensures m[k := v][j := w][k := last] == m[j := w][k := last]
  {
  }

  /** ... or gives the number up to a new one. */
  lemma PhoneToNew(b: Book, aci: Aci, phone: Phone, pni: Option<Pni>, found: Id)
    requires Good(b) && Lookup(b, PhoneValue(phone)) == Some(found) && Lookup(b, AciValue(aci)) == None
    requires found in b.contacts && !TakesAci(b.contacts[found], pni)
    ensures ExactMid(b, Step(Merge(b, None, [AciValue(aci)], []), ItemFor(b, Some(PhoneValue(phone))), pni), b.nextId,
                     Some(aci), Some(phone), pni)
  {
    var u, v, t := AciValue(aci), PhoneValue(phone), b.nextId;
    var s := Merge(b, None, [u], []);
    NextIsNew(b);
    assert ContactOr(b.contacts, t) == NOBODY;
    hide Apply, Good, Lookup, WithPhone, WithoutPhone, WithAci, Claim, TakesAci, UseOne, ExactMid, Step, ContactOr;
    ChooseIs(b, [u], found, u, pni);
    StepMatchedOne(s, u, v, found, pni);
    var s' := UseOne(s, found, u, pni).(unused := []);
    assert s'.book.contacts[found] == b.contacts[found] && s'.book.contacts[t] == WithAci(NOBODY, aci);
    ClaimIs(s', found, v, pni);
    var c, left := WithPhone(WithAci(NOBODY, aci), phone), WithoutPhone(b.contacts[found], pni);
    SetTwice(b.contacts, t, WithAci(NOBODY, aci), found, left, c);
    ExactBeside(b, Claim(s', found, v, pni), t, Some(aci), Some(phone), pni, c, found);
  }

  lemma AciKeepsPhone(c: Contact, aci: Aci, phone: Phone)
    ensures Holds(WithAci(c, aci), PhoneValue(phone)) <==> Holds(c, PhoneValue(phone))
  {
  }

  lemma MidIs(b: Book, aci: Option<Aci>, e164: Option<Phone>, pni: Option<Pni>)
    requires Good(b)
    ensures var s1, item := AfterAci(b, aci), ItemFor(b, PhoneArg(e164));
            && ItemFits(item, s1.book) && Fits(s1)
            && var s, t := Step(s1, item, pni), ChosenEarly(b, aci, e164, pni);
               if t.Some? then ExactMid(b, s, t.value, aci, e164, pni)
               else s == Merge(b, None, Given(aci, e164), [])
  {
    hide Good, Lookup, ExactMid, Claim, Apply, TakesAci;
    AciStep(b, aci, pni);
    FoundAreThere(b, aci, e164, pni);
    MidAfterBoth(b, aci, e164, pni);
    hide Mid;
    var byAci, byPhone := FoundBy(b, AciArg(aci)), FoundBy(b, PhoneArg(e164));
    if byAci.Some? {
      hide Step;
      if e164.None? {
        AciAlone(b, aci.value, pni, byAci.value);
      } else if byPhone.None? {
        PhoneNew(b, aci.value, e164.value, pni, byAci.value);
      } else if byPhone == byAci {
        PhoneSame(b, aci, e164.value, pni, byAci.value, Merge(b, byAci, [], []));
      } else {
        PhoneElsewhere(b, aci.value, e164.value, pni, byAci.value, byPhone.value);
      }
    } else if byPhone.Some? {
      assert Given(aci, None) == if aci.Some? then [AciValue(aci.value)] else [];
      hide Step;
      if aci.None? {
        PhoneSame(b, None, e164.value, pni, byPhone.value, Merge(b, None, [], []));
      } else if TakesAci(b.contacts[byPhone.value], pni) {
        PhoneTakesAci(b, aci.value, e164.value, pni, byPhone.value);
      } else {
        PhoneToNew(b, aci.value, e164.value, pni, byPhone.value);
      }
    }
  }

  // ----- after the PNI -----

  /** What the whole operation returns and leaves. */
  ghost predicate ExactEnd(b: Book, r: Merged, t: Id, aci: Option<Aci>, e164: Option<Phone>, pni: Option<Pni>) {
    var byAci, byPhone, byPni := FoundBy(b, AciArg(aci)), FoundBy(b, PhoneArg(e164)), FoundBy(b, PniArg(pni));
    && r.conversation == t
    && r.book.contacts.Keys == b.contacts.Keys + {t}
    && r.book.contacts[t] ==
         ChosenEnd(ChosenMid(ContactOr(b.contacts, t), aci, e164, byAci == Some(t), byPhone == Some(t)),
                   pni, byPni == Some(t), aci.None? && e164.None?)
    && (forall id :: id in b.contacts && id != t ==>
          r.book.contacts[id] ==
            OtherEndIs(OtherMidIs(b.contacts[id], byPhone == Some(id), pni), byPni == Some(id), pni))
    && r.handed ==
         (if byPhone.Some? && byPhone != Some(t) && byPhone.value in b.contacts
             && WithoutPhone(b.contacts[byPhone.value], pni) == NOBODY then [byPhone.value] else [])
         + (if byPni.Some? && byPni != Some(t) && byPni.value in b.contacts
               && WithoutPni(OtherMidIs(b.contacts[byPni.value], byPhone == byPni, pni), pni) == NOBODY
            then [byPni.value] else [])
    && r.book.nextId == b.nextId + if t in b.contacts then 0 else 1
  }

  /** The state with one contact less a PNI and the target changed. */
  lemma EndBeside(b: Book, s: Merge, r: Merge, t: Id, aci: Option<Aci>, e164: Option<Phone>, pni: Pni, found: Id)
    requires ExactMid(b, s, t, aci, e164, Some(pni)) && FoundBy(b, PniArg(Some(pni))) == Some(found)
    requires found != t && found in b.contacts && found in s.book.contacts && t in s.book.contacts
    requires var left := WithoutPni(s.book.contacts[found], Some(pni));
             && r.book.contacts == s.book.contacts[found := left][t := WithPni(s.book.contacts[t], pni)]
             && r.handed == s.handed + (if left == NOBODY then [found] else [])
             && r.book.nextId == s.book.nextId
    ensures ExactEnd(b, Merged(r.book, t, r.handed), t, aci, e164, Some(pni))
  {
    hide ChosenMid, Lookup, WithoutPhone, WithoutPni, WithPni, ContactOr;
  }

  lemma EndAlone(b: Book, s: Merge, r: Merge, t: Id, aci: Option<Aci>, e164: Option<Phone>, pni: Option<Pni>)
    requires ExactMid(b, s, t, aci, e164, pni) && t in s.book.contacts
    requires FoundBy(b, PniArg(pni)).Some? ==> FoundBy(b, PniArg(pni)) == Some(t)
    requires r.book.contacts ==
               s.book.contacts[t := ChosenEnd(s.book.contacts[t], pni, FoundBy(b, PniArg(pni)) == Some(t),
                                              aci.None? && e164.None?)]
    requires r.handed == s.handed && r.book.nextId == s.book.nextId
    ensures ExactEnd(b, Merged(r.book, t, r.handed), t, aci, e164, pni)
  {
    hide ChosenMid, ChosenEnd, Lookup, WithoutPhone, WithoutPni, WithPni, ContactOr;
    assert s.handed + [] == s.handed;
  }

  /** The PNI once a target is chosen. */
  lemma EndFromMid(b: Book, s: Merge, t: Id, aci: Option<Aci>, e164: Option<Phone>, pni: Pni)
    requires Good(b) && ExactMid(b, s, t, aci, e164, Some(pni)) && (aci.Some? || e164.Some?)
    ensures var item := ItemFor(b, Some(PniValue(pni)));
            && Fits(s) && ItemFits(item, s.book)
            && var r := Step(s, item, Some(pni));
               r.target == Some(t) && ExactEnd(b, Merged(r.book, t, r.handed), t, aci, e164, Some(pni))
  {
    var v := PniValue(pni);
    var found := Lookup(b, v);
    FoundAreThere(b, aci, e164, Some(pni));
    assert t in s.book.contacts && s.target == Some(t) && s.unused == [];
    assert found.Some? ==> found.value in s.book.contacts;
    hide Apply, Good, Lookup, WithPni, WithoutPni, Claim, ExactMid, ExactEnd, Step;
    if found.None? {
      StepUnmatched(s, v, Some(pni));
      SetIs(s.book, t, v);
      EndAlone(b, s, Step(s, Item(Some(v), None), Some(pni)), t, aci, e164, Some(pni));
    } else {
      StepMatched(s, v, found.value, Some(pni));
      if found == Some(t) {
        SameTarget(s, t, pni);
        EndAlone(b, s, Claim(s, t, v, Some(pni)), t, aci, e164, Some(pni));
      } else {
        ClaimIs(s, found.value, v, Some(pni));
        EndBeside(b, s, Claim(s, found.value, v, Some(pni)), t, aci, e164, pni, found.value);
      }
    }
  }

  /** The target gets the PNI that it was found by once more if it has none by then. */
  lemma SameTarget(s: Merge, t: Id, pni: Pni)
    requires Fits(s) && s.target == Some(t) && t in s.book.contacts
    ensures var r, c := Claim(s, t, PniValue(pni), Some(pni)), s.book.contacts[t];
            && r.target == s.target && r.handed == s.handed && r.book.nextId == s.book.nextId
            && r.book.contacts == s.book.contacts[t := ChosenEnd(c, Some(pni), true, false)]
  {
    hide Apply, WithPni, SetTo;
    if s.book.contacts[t].pni.None? {
      SetIs(s.book, t, PniValue(pni));
    } else {
      assert s.book.contacts[t := s.book.contacts[t]] == s.book.contacts;
    }
  }

  // ----- a PNI that chooses -----

  /** The first value that waits makes the contact with the PNI the target, or a new one. */
  lemma WaitingOne(b: Book, found: Id, aci: Option<Aci>, e164: Option<Phone>, pni: Pni)
    requires Good(b) && found in b.contacts && (aci.Some? != e164.Some?)
    requires FoundBy(b, AciArg(aci)) == None && FoundBy(b, PhoneArg(e164)) == None
    ensures var us := Given(aci, e164);
            var s := UseAll(Merge(b, None, us, []), found, us, Some(pni)).(unused := []);
            ExactMid(b, s, ChosenLate(b, found, aci, e164, pni), aci, e164, Some(pni))
  {
    var v := if aci.Some? then AciValue(aci.value) else PhoneValue(e164.value);
    var us := [v];
    assert Given(aci, e164) == us;
    NextIsNew(b);
    hide Apply, Good, Lookup, WithPhone, WithAci, TakesAci, UseOne, ExactMid;
    ChooseIs(b, us, found, v, Some(pni));
    UseAllOne(Merge(b, None, us, []), found, v, Some(pni));
    var s := UseOne(Merge(b, None, us, []), found, v, Some(pni)).(unused := []);
    var t := s.target.value;
    ExactAlone(b, s, t, aci, e164, Some(pni), s.book.contacts[t]);
  }

  function ChosenLate(b: Book, found: Id, aci: Option<Aci>, e164: Option<Phone>, pni: Pni): Id
    requires found in b.contacts
  {
    var c := b.contacts[found];
    if (if aci.Some? then TakesAci(c, Some(pni)) else e164.None? || c.e164.None?) then found else b.nextId
  }

  /** The phone number after an ACI that chose the target. */
  lemma WaitingPhone(b: Book, s1: Merge, t: Id, found: Id, aci: Aci, phone: Phone, pni: Pni)
    requires Fits(s1) && found in s1.book.contacts && s1.target == Some(t) && s1.handed == []
    requires FoundBy(b, AciArg(Some(aci))) == None && FoundBy(b, PhoneArg(Some(phone))) == None
    requires s1.book.contacts == b.contacts[t := WithAci(ContactOr(b.contacts, t), aci)]
    requires s1.book.nextId == b.nextId + if t in b.contacts then 0 else 1
    ensures ExactMid(b, UseOne(s1, found, PhoneValue(phone), Some(pni)).(unused := []), t,
                     Some(aci), Some(phone), Some(pni))
  {
    var v := PhoneValue(phone);
    hide Apply, Lookup, WithPhone, WithAci, ExactMid, UseOne, ContactOr;
    UseOnTarget(s1, found, v, Some(pni));
    SetIs(s1.book, t, v);
    var c := WithPhone(WithAci(ContactOr(b.contacts, t), aci), phone);
    var s := UseOne(s1, found, v, Some(pni)).(unused := []);
    assert s.book.contacts == b.contacts[t := c];
    ExactAlone(b, s, t, Some(aci), Some(phone), Some(pni), c);
  }

  lemma WaitingTwo(b: Book, found: Id, aci: Aci, phone: Phone, pni: Pni)
    requires Good(b) && found in b.contacts
    requires Lookup(b, AciValue(aci)) == None && Lookup(b, PhoneValue(phone)) == None
    ensures var us := Given(Some(aci), Some(phone));
            var s := UseAll(Merge(b, None, us, []), found, us, Some(pni)).(unused := []);
            ExactMid(b, s, ChosenLate(b, found, Some(aci), Some(phone), pni), Some(aci), Some(phone), Some(pni))
  {
    var u, v := AciValue(aci), PhoneValue(phone);
    var us := [u, v];
    assert Given(Some(aci), Some(phone)) == us;
    NextIsNew(b);
    hide Apply, Good, Lookup, WithPhone, WithAci, TakesAci, ExactMid, UseOne, UseAll, ContactOr;
    ChooseIs(b, us, found, u, Some(pni));
    var s1 := UseOne(Merge(b, None, us, []), found, u, Some(pni));
    UseAllTwo(Merge(b, None, us, []), found, u, v, Some(pni));
    WaitingPhone(b, s1, s1.target.value, found, aci, phone, pni);
  }

  lemma UseOnTarget(s: Merge, found: Id, v: Value, pni: Option<Pni>)
    requires Fits(s) && found in s.book.contacts && s.target.Some?
    ensures UseOne(s, found, v, pni) == s.(book := Apply(s.book, s.target.value, SetTo(v)))
  {
  }

  lemma UseAllTwo(s: Merge, found: Id, u: Value, v: Value, pni: Option<Pni>)
    requires Fits(s) && found in s.book.contacts
    ensures UseAll(s, found, [u, v], pni) == UseOne(UseOne(s, found, u, pni), found, v, pni)
  {
    hide UseOne;
    assert [u, v][1..] == [v];
    UseAllOne(UseOne(s, found, u, pni), found, v, pni);
  }

  /** The PNI when nothing was found before it. */
  lemma EndFromWaiting(b: Book, aci: Option<Aci>, e164: Option<Phone>, pni: Pni, found: Id)
    requires Good(b) && Lookup(b, PniValue(pni)) == Some(found)
    requires FoundBy(b, AciArg(aci)) == None && FoundBy(b, PhoneArg(e164)) == None
    ensures found in b.contacts
    ensures var s, item := Merge(b, None, Given(aci, e164), []), ItemFor(b, Some(PniValue(pni)));
            var t := ChosenLate(b, found, aci, e164, pni);
            && ItemFits(item, b)
            && var r := Step(s, item, Some(pni));
               r.target == Some(t) && ExactEnd(b, Merged(r.book, t, r.handed), t, aci, e164, Some(pni))
  {
    var v, us := PniValue(pni), Given(aci, e164);
    FoundAreThere(b, aci, e164, Some(pni));
    hide Good, Lookup, TakesAci, ExactMid, ExactEnd, Apply;
    if us == [] {
      assert b.contacts[found := b.contacts[found]] == b.contacts;
      ExactAlone(b, Merge(b, Some(found), [], []), found, None, None, Some(pni), b.contacts[found]);
      EndAlone(b, Merge(b, Some(found), [], []), Merge(b, Some(found), [], []), found, None, None, Some(pni));
    } else {
      hide UseAll, Claim;
      if aci.Some? && e164.Some? {
        WaitingTwo(b, found, aci.value, e164.value, pni);
      } else {
        WaitingOne(b, found, aci, e164, pni);
      }
      var s' := UseAll(Merge(b, None, us, []), found, us, Some(pni)).(unused := []);
      EndFromMid(b, s', ChosenLate(b, found, aci, e164, pni), aci, e164, pni);
      UnusedFirst(b, us, found, v, Some(pni));
    }
  }

  lemma UnusedFirst(b: Book, us: seq<Value>, found: Id, v: Value, pni: Option<Pni>)
    requires found in b.contacts
    ensures var s' := UseAll(Merge(b, None, us, []), found, us, pni).(unused := []);
            && found in s'.book.contacts && Fits(s')
            && Step(Merge(b, None, us, []), Item(Some(v), Some(found)), pni)
                 == Step(s', Item(Some(v), Some(found)), pni)
  {
    hide Claim;
  }

  // ----- the theorem -----

  /** Nothing was found at all. */
  lemma EndNew(b: Book, aci: Option<Aci>, e164: Option<Phone>, pni: Option<Pni>)
    requires Good(b)
    requires FoundBy(b, AciArg(aci)) == None && FoundBy(b, PhoneArg(e164)) == None && FoundBy(b, PniArg(pni)) == None
    ensures ExactEnd(b, Merged(AddContact(b, WithAll(aci, e164, pni)), b.nextId, []), b.nextId, aci, e164, pni)
  {
    NextIsNew(b);
    var r := AddContact(b, WithAll(aci, e164, pni));
    assert r.contacts == b.contacts[b.nextId := WithAll(aci, e164, pni)] && r.nextId == b.nextId + 1;
    hide Good, Lookup, AddContact;
  }

  lemma EndOfMid(b: Book, s: Merge, t: Id, aci: Option<Aci>, e164: Option<Phone>)
    requires ExactMid(b, s, t, aci, e164, None) && (aci.Some? || e164.Some?)
    ensures ExactEnd(b, Merged(s.book, t, s.handed), t, aci, e164, None)
  {
    hide ChosenMid, Lookup, WithoutPhone, ContactOr;
    assert s.handed + [] == s.handed;
  }

  /** The outcome in full: which contact is returned, what it holds, what every other contact has left,
      and who is handed over in which order. */
  lemma MergeIsExactly(b: Book, aci: Option<Aci>, e164: Option<Phone>, pni: Option<Pni>)
    requires Good(b) && (aci.Some? || e164.Some? || pni.Some?)
    ensures var r := MergeContacts(b, aci, e164, pni);
            r.Some? && ExactEnd(b, r.value, Chosen(b, aci, e164, pni), aci, e164, pni)
  {
    hide Good, Lookup, Step, StepAll, AddContact, ExactMid, ExactEnd, TakesAci;
    ThreeSteps(b, aci, e164, pni);
    AciStep(b, aci, pni);
    FoundAreThere(b, aci, e164, pni);
    MidIs(b, aci, e164, pni);
    var s := Step(AfterAci(b, aci), ItemFor(b, PhoneArg(e164)), pni);
    var early, byPni := ChosenEarly(b, aci, e164, pni), FoundBy(b, PniArg(pni));
    if early.Some? {
      assert Chosen(b, aci, e164, pni) == early.value;
      assert aci.Some? || e164.Some?;
      if pni.Some? {
        EndFromMid(b, s, early.value, aci, e164, pni.value);
      } else {
        MidTarget(b, s, early.value, aci, e164);
        NoPniStep(b, s);
        EndOfMid(b, s, early.value, aci, e164);
      }
    } else if byPni.Some? {
      EndFromWaiting(b, aci, e164, pni.value, byPni.value);
    } else {
      NoTarget(b, aci, e164, pni);
      EndNew(b, aci, e164, pni);
    }
  }

  lemma MidTarget(b: Book, s: Merge, t: Id, aci: Option<Aci>, e164: Option<Phone>)
    requires ExactMid(b, s, t, aci, e164, None)
    ensures s.target == Some(t) && Fits(s)
  {
  }

  /** Without any match the loop changes nothing, and the second lookup finds nothing either. */
  lemma NoTarget(b: Book, aci: Option<Aci>, e164: Option<Phone>, pni: Option<Pni>)
    requires FoundBy(b, AciArg(aci)) == None && FoundBy(b, PhoneArg(e164)) == None && FoundBy(b, PniArg(pni)) == None
    ensures var r := Step(Merge(b, None, Given(aci, e164), []), ItemFor(b, PniArg(pni)), pni);
            r.target.None? && r.book == b && r.handed == []
    ensures FoundBy(b, Identifier(aci, e164, pni)) == None
  {
  }
}
