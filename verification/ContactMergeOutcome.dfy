/** The PNI, and the outcome of the whole operation. */
module ContactMergeOutcome {
  import opened Options
  import opened ServiceIds
  import opened Contacts
  import opened ContactMerge
  import opened ContactMergeLaws

  // ----- the outcome -----

  /** The PNI is found in the service id slot of a contact with another PNI; the ACI is new and will
      take that slot, and no phone number clears the other PNI in between. */
  predicate Stranded(b: Book, aci: Option<Aci>, e164: Option<Phone>, pni: Pni)
    requires Good(b)
  {
    LookupFinds(b, PniValue(pni));
    && Lookup(b, PniValue(pni)).Some?
    && aci.Some? && Lookup(b, AciValue(aci.value)).None?
    && var c := b.contacts[Lookup(b, PniValue(pni)).value];
       c.serviceId == Some(OfPni(pni)) && c.pni.Some? && c.pni != Some(pni) && (e164.None? || c.e164 == e164)
  }

  /** A contact other than the result has at most lost identifiers, and only if it was found by the
      phone number or the PNI; it holds nothing that was passed in, and it was handed over to be
      merged away exactly when it was found and nothing is left of it. */
  predicate OtherEnd(now: Contact, before: Contact, gone: bool,
                     aci: Option<Aci>, e164: Option<Phone>, pni: Option<Pni>) {
    var found := HoldsArg(before, PhoneArg(e164)) || HoldsArg(before, PniArg(pni));
    && Shrunk(now, before) && (found || now == before) && (gone <==> found && Empty(now))
    && !HoldsArg(now, AciArg(aci)) && !HoldsArg(now, PhoneArg(e164)) && !HoldsArg(now, PniArg(pni))
  }

  predicate OthersEnd(b: Book, r: Merged, aci: Option<Aci>, e164: Option<Phone>, pni: Option<Pni>) {
    && r.book.contacts.Keys == b.contacts.Keys + {r.conversation}
    && (forall id :: id in r.handed ==> id in b.contacts && id != r.conversation)
    && (forall id :: id in b.contacts && id != r.conversation ==>
          OtherEnd(r.book.contacts[id], b.contacts[id], id in r.handed, aci, e164, pni))
  }

  predicate TargetEnd(b: Book, c: Contact, aci: Option<Aci>, e164: Option<Phone>, pni: Option<Pni>)
    requires Good(b)
  {
    && (aci.Some? ==> Holds(c, AciValue(aci.value)))
    && (e164.Some? ==> Holds(c, PhoneValue(e164.value)))
    && (pni.Some? ==> (Holds(c, PniValue(pni.value)) <==> !Stranded(b, aci, e164, pni.value)))
  }

  ghost predicate Outcome(b: Book, r: Merged, aci: Option<Aci>, e164: Option<Phone>, pni: Option<Pni>)
    requires Good(b)
  {
    Good(r.book) && OthersEnd(b, r, aci, e164, pni) && TargetEnd(b, r.book.contacts[r.conversation], aci, e164, pni)
  }

  // ----- others -----

  lemma MidIsEnd(now: Contact, before: Contact, gone: bool, aci: Option<Aci>, e164: Option<Phone>, pni: Option<Pni>)
    requires OtherMid(now, before, gone, aci, e164) && !HoldsArg(before, PniArg(pni))
    ensures OtherEnd(now, before, gone, aci, e164, pni)
  {
  }

  /** The contact found by the PNI after the PNI is taken off. */
  lemma TakenIsEnd(now: Contact, mid: Contact, before: Contact, gone: bool,
                   aci: Option<Aci>, e164: Option<Phone>, pni: Pni)
    requires OtherMid(mid, before, gone, aci, e164) && Holds(before, PniValue(pni))
    requires Shrunk(now, mid) && !Holds(now, PniValue(pni))
    ensures OtherEnd(now, before, gone || Empty(now), aci, e164, Some(pni))
  {
  }

  /** Among the others only the contact found by the PNI may still hold it. */
  lemma OnlyFoundHolds(b: Book, s: Merge, t: Id, aci: Option<Aci>, e164: Option<Phone>, pni: Pni, found: Id)
    requires Good(b) && OthersMid(b, s, t, aci, e164) && Only(b.contacts, found, PniValue(pni)) && t != found
    requires TargetMid(b, s.book.contacts[t], t, aci, e164, Some(pni))
    ensures Only(s.book.contacts, found, PniValue(pni))
  {
    forall id | id in s.book.contacts && id != found ensures !Holds(s.book.contacts[id], PniValue(pni)) {
      if id != t {
        assert OtherMid(s.book.contacts[id], b.contacts[id], id in s.handed, aci, e164);
      }
      hide OtherMid, Only;
      assert id in b.contacts ==> !Holds(b.contacts[id], PniValue(pni));
    }
  }

  // ----- the target -----

  /** The target takes the PNI and keeps the rest. */
  lemma PniOntoTarget(c: Contact, aci: Option<Aci>, e164: Option<Phone>, pni: Pni)
    requires aci.Some? ==> Holds(c, AciValue(aci.value))
    requires e164.Some? ==> Holds(c, PhoneValue(e164.value))
    ensures var d := After(c, SetTo(PniValue(pni)));
            && (aci.Some? ==> Holds(d, AciValue(aci.value)))
            && (e164.Some? ==> Holds(d, PhoneValue(e164.value))) && Holds(d, PniValue(pni))
  {
  }

  /** The conditions for a stranded PNI put the contact that it is found on at the target. */
  lemma StrandedIsTarget(b: Book, c: Contact, t: Id, aci: Option<Aci>, e164: Option<Phone>, pni: Pni)
    requires Good(b) && TargetMid(b, c, t, aci, e164, Some(pni)) && Stranded(b, aci, e164, pni)
    ensures Lookup(b, PniValue(pni)) == Some(t) && c.pni == b.contacts[t].pni && !Holds(c, PniValue(pni))
  {
    LookupFinds(b, PniValue(pni));
    LookupFinds(b, AciValue(aci.value));
    if e164.Some? {
      LookupFinds(b, PhoneValue(e164.value));
    }
    hide Good, Lookup;
  }

  /** A target on which the PNI was found, and which is not bare of PNIs, keeps it unless stranded. */
  lemma KeptUnlessStranded(b: Book, c: Contact, t: Id, aci: Option<Aci>, e164: Option<Phone>, pni: Pni)
    requires Good(b) && TargetMid(b, c, t, aci, e164, Some(pni)) && Lookup(b, PniValue(pni)) == Some(t) && c.pni.Some?
    ensures Holds(c, PniValue(pni)) <==> !Stranded(b, aci, e164, pni)
  {
    LookupFinds(b, PniValue(pni));
    if aci.Some? {
      LookupFinds(b, AciValue(aci.value));
    }
    hide Good, Lookup;
  }

  // ----- the PNI with a target -----

  lemma EndWithoutPni(b: Book, s: Merge, t: Id, aci: Option<Aci>, e164: Option<Phone>)
    requires Good(b) && Mid(b, s, aci, e164, None) && s.target == Some(t)
    ensures Outcome(b, Merged(s.book, t, s.handed), aci, e164, None)
  {
    hide Good, OtherMid, OtherEnd;
    forall id | id in b.contacts && id != t
      ensures OtherEnd(s.book.contacts[id], b.contacts[id], id in s.handed, aci, e164, None)
    {
      MidIsEnd(s.book.contacts[id], b.contacts[id], id in s.handed, aci, e164, None);
    }
  }

  /** Nobody had the PNI. */
  lemma EndUnmatched(b: Book, s: Merge, t: Id, aci: Option<Aci>, e164: Option<Phone>, pni: Pni)
    requires Good(b) && Mid(b, s, aci, e164, Some(pni)) && s.target == Some(t) && Lookup(b, PniValue(pni)) == None
    ensures Outcome(b, Merged(Apply(s.book, t, SetTo(PniValue(pni))), t, s.handed), aci, e164, Some(pni))
  {
    hide Good, OtherMid, OtherEnd, Lookup, Apply, After, Holds, TargetMid;
    LookupFinds(b, PniValue(pni));
    assert Only(s.book.contacts, t, PniValue(pni)) by { NobodyStill(b, s, t, aci, e164, pni); }
    ValueSet(s.book, t, PniValue(pni));
    TargetParts(b, s.book.contacts[t], t, aci, e164, Some(pni));
    PniOntoTarget(s.book.contacts[t], aci, e164, pni);
    forall id | id in b.contacts && id != t
      ensures OtherEnd(s.book.contacts[id], b.contacts[id], id in s.handed, aci, e164, Some(pni))
    {
      MidIsEnd(s.book.contacts[id], b.contacts[id], id in s.handed, aci, e164, Some(pni));
    }
  }

  lemma TargetParts(b: Book, c: Contact, t: Id, aci: Option<Aci>, e164: Option<Phone>, pni: Option<Pni>)
    requires TargetMid(b, c, t, aci, e164, pni)
    ensures aci.Some? ==> Holds(c, AciValue(aci.value))
    ensures e164.Some? ==> Holds(c, PhoneValue(e164.value))
  {
  }

  lemma NobodyStill(b: Book, s: Merge, t: Id, aci: Option<Aci>, e164: Option<Phone>, pni: Pni)
    requires OthersMid(b, s, t, aci, e164) && Nobody(b.contacts, PniValue(pni))
    ensures Only(s.book.contacts, t, PniValue(pni))
  {
    forall id | id in s.book.contacts && id != t ensures !Holds(s.book.contacts[id], PniValue(pni)) {
      assert OtherMid(s.book.contacts[id], b.contacts[id], id in s.handed, aci, e164);
      hide OtherMid;
      assert !Holds(b.contacts[id], PniValue(pni));
    }
  }

  /** Somebody else had it. */
  lemma EndMoved(b: Book, s: Merge, t: Id, aci: Option<Aci>, e164: Option<Phone>, pni: Pni, found: Id)
    requires Good(b) && Mid(b, s, aci, e164, Some(pni)) && s.target == Some(t)
    requires Lookup(b, PniValue(pni)) == Some(found) && found != t
    ensures found in s.book.contacts
    ensures var r := Claim(s, found, PniValue(pni), Some(pni));
            r.target == Some(t) && Outcome(b, Merged(r.book, t, r.handed), aci, e164, Some(pni))
  {
    hide Good, OtherMid, OtherEnd, Lookup, After, Holds, TargetMid, Claim, Shrunk, Stranded;
    LookupFinds(b, PniValue(pni));
    OnlyFoundHolds(b, s, t, aci, e164, pni, found);
    ValueMoved(s, found, PniValue(pni), Some(pni));
    var mid := s.book.contacts[found];
    var d := After(mid, TakeOff(mid, PniValue(pni), Some(pni)));
    TargetParts(b, s.book.contacts[t], t, aci, e164, Some(pni));
    PniOntoTarget(s.book.contacts[t], aci, e164, pni);
    if Stranded(b, aci, e164, pni) {
      StrandedIsTarget(b, s.book.contacts[t], t, aci, e164, pni);
    }
    TakenIsEnd(d, mid, b.contacts[found], found in s.handed, aci, e164, pni);
    forall id | id in b.contacts && id != t && id != found
      ensures OtherEnd(s.book.contacts[id], b.contacts[id], id in s.handed, aci, e164, Some(pni))
    {
      MidIsEnd(s.book.contacts[id], b.contacts[id], id in s.handed, aci, e164, Some(pni));
    }
  }

  /** The target had it. */
  lemma EndKept(b: Book, s: Merge, t: Id, aci: Option<Aci>, e164: Option<Phone>, pni: Pni)
    requires Good(b) && Mid(b, s, aci, e164, Some(pni)) && s.target == Some(t) && Lookup(b, PniValue(pni)) == Some(t)
    ensures t in s.book.contacts
    ensures var r := Claim(s, t, PniValue(pni), Some(pni));
            r.target == Some(t) && Outcome(b, Merged(r.book, t, r.handed), aci, e164, Some(pni))
  {
    hide Good, OtherMid, OtherEnd, Lookup, Apply, After, Holds, TargetMid, Stranded;
    LookupFinds(b, PniValue(pni));
    var c := s.book.contacts[t];
    TargetParts(b, c, t, aci, e164, Some(pni));
    if c.pni.None? {
      assert Only(s.book.contacts, t, PniValue(pni)) by { OnlyTargetStill(b, s, t, aci, e164, pni); }
      ValueSet(s.book, t, PniValue(pni));
      PniOntoTarget(c, aci, e164, pni);
      if Stranded(b, aci, e164, pni) {
        StrandedIsTarget(b, c, t, aci, e164, pni);
        StrandedHasPni(b, aci, e164, pni);
      }
    } else {
      KeptUnlessStranded(b, c, t, aci, e164, pni);
    }
    forall id | id in b.contacts && id != t
      ensures OtherEnd(s.book.contacts[id], b.contacts[id], id in s.handed, aci, e164, Some(pni))
    {
      MidIsEnd(s.book.contacts[id], b.contacts[id], id in s.handed, aci, e164, Some(pni));
    }
  }

  lemma StrandedHasPni(b: Book, aci: Option<Aci>, e164: Option<Phone>, pni: Pni)
    requires Good(b) && Stranded(b, aci, e164, pni)
    ensures Lookup(b, PniValue(pni)).Some? && Lookup(b, PniValue(pni)).value in b.contacts
    ensures b.contacts[Lookup(b, PniValue(pni)).value].pni.Some?
  {
  }

  lemma OnlyTargetStill(b: Book, s: Merge, t: Id, aci: Option<Aci>, e164: Option<Phone>, pni: Pni)
    requires OthersMid(b, s, t, aci, e164) && Only(b.contacts, t, PniValue(pni))
    ensures Only(s.book.contacts, t, PniValue(pni))
  {
    forall id | id in s.book.contacts && id != t ensures !Holds(s.book.contacts[id], PniValue(pni)) {
      assert OtherMid(s.book.contacts[id], b.contacts[id], id in s.handed, aci, e164);
      hide OtherMid;
      assert !Holds(b.contacts[id], PniValue(pni));
    }
  }

  // ----- the PNI without a target -----

  /** Everything that was passed in before the PNI is new. */
  predicate AllNew(b: Book, aci: Option<Aci>, e164: Option<Phone>) {
    forall v :: v in Given(aci, e164) ==> Nobody(b.contacts, v)
  }

  /** The contact that takes the unused values: the one found by the PNI, which then only keeps a PNI
      if no phone number came, or a new one without a PNI. */
  predicate TargetNew(b: Book, c: Contact, t: Id, found: Id, aci: Option<Aci>, e164: Option<Phone>, pni: Pni)
    requires found in b.contacts
  {
    && (aci.Some? ==> Holds(c, AciValue(aci.value))) && (e164.Some? ==> Holds(c, PhoneValue(e164.value)))
    && (if t == found then
          && (e164.None? ==> c.pni == b.contacts[t].pni) && (e164.Some? ==> c.pni.None?)
        else
          && t == b.nextId && !Holds(c, PniValue(pni))
          && (aci.Some? ==> b.contacts[found].serviceId != Some(OfPni(pni))))
  }

  ghost predicate Taken(b: Book, s: Merge, found: Id, aci: Option<Aci>, e164: Option<Phone>, pni: Pni)
    requires found in b.contacts
  {
    && Good(s.book) && s.target.Some? && s.handed == []
    && var t := s.target.value;
       && t in s.book.contacts && s.book.contacts == b.contacts[t := s.book.contacts[t]]
       && TargetNew(b, s.book.contacts[t], t, found, aci, e164, pni)
  }

  /** The first unused value. */
  lemma FirstTaken(b: Book, us: seq<Value>, found: Id, v: Value, pni: Pni)
    requires Good(b) && found in b.contacts && Lookup(b, v) == None && Nobody(b.contacts, v)
    requires v.AciValue? || v.PhoneValue?
    ensures var s := UseOne(Merge(b, None, us, []), found, v, Some(pni));
            && s.unused == us
            && (v.AciValue? ==> Taken(b, s, found, Some(v.aci), None, pni))
            && (v.PhoneValue? ==> Taken(b, s, found, None, Some(v.phone), pni))
  {
    hide Good, Lookup, Apply, AddContact, After, TargetNew, Suits, Holds;
    if Suits(b.contacts[found], v, Some(pni)) {
      ValueSet(b, found, v);
      SuitedTarget(b, found, v, pni);
    } else {
      NewTarget(b, v);
      UnsuitedTarget(b, found, v, pni);
    }
  }

  lemma SuitedTarget(b: Book, found: Id, v: Value, pni: Pni)
    requires found in b.contacts
    ensures var c := After(b.contacts[found], SetTo(v));
            && (v.AciValue? ==> TargetNew(b, c, found, found, Some(v.aci), None, pni))
            && (v.PhoneValue? ==> TargetNew(b, c, found, found, None, Some(v.phone), pni))
  {
  }

  lemma UnsuitedTarget(b: Book, found: Id, v: Value, pni: Pni)
    requires found in b.contacts && b.nextId !in b.contacts && !Suits(b.contacts[found], v, Some(pni))
    ensures v.AciValue? ==> TargetNew(b, NewContact(v), b.nextId, found, Some(v.aci), None, pni)
    ensures v.PhoneValue? ==> TargetNew(b, NewContact(v), b.nextId, found, None, Some(v.phone), pni)
  {
  }

  /** The phone number after the ACI. */
  lemma SecondTaken(b: Book, s: Merge, found: Id, aci: Aci, phone: Phone, pni: Pni)
    requires Good(b) && found in b.contacts && Nobody(b.contacts, PhoneValue(phone)) && found in s.book.contacts
    requires Taken(b, s, found, Some(aci), None, pni)
    ensures Taken(b, UseOne(s, found, PhoneValue(phone), Some(pni)), found, Some(aci), Some(phone), pni)
    ensures UseOne(s, found, PhoneValue(phone), Some(pni)).unused == s.unused
  {
    hide Good, Apply, After, TargetNew, Holds;
    var t := s.target.value;
    assert Only(s.book.contacts, t, PhoneValue(phone));
    ValueSet(s.book, t, PhoneValue(phone));
    PhoneOntoNew(b, s.book.contacts[t], t, found, aci, phone, pni);
  }

  lemma PhoneOntoNew(b: Book, c: Contact, t: Id, found: Id, aci: Aci, phone: Phone, pni: Pni)
    requires found in b.contacts && TargetNew(b, c, t, found, Some(aci), None, pni)
    ensures TargetNew(b, After(c, SetTo(PhoneValue(phone))), t, found, Some(aci), Some(phone), pni)
  {
  }

  lemma AllTaken(b: Book, found: Id, aci: Option<Aci>, e164: Option<Phone>, pni: Pni)
    requires Good(b) && found in b.contacts && AllNew(b, aci, e164) && (aci.Some? || e164.Some?)
    ensures var us := Given(aci, e164);
            Taken(b, UseAll(Merge(b, None, us, []), found, us, Some(pni)), found, aci, e164, pni)
  {
    hide Good, Lookup, UseOne, Taken, Nobody;
    var us := Given(aci, e164);
    var s := Merge(b, None, us, []);
    assert us[0] in us;
    LookupFinds(b, us[0]);
    FirstTaken(b, us, found, us[0], pni);
    if aci.Some? && e164.Some? {
      assert us[1] in us && us[1..] == [us[1]];
      var s' := UseOne(s, found, us[0], Some(pni));
      SecondTaken(b, s', found, aci.value, e164.value, pni);
      UseAllOne(s', found, us[1], Some(pni));
    } else {
      UseAllOne(s, found, us[0], Some(pni));
    }
  }

  lemma UntouchedEnd(c: Contact, aci: Option<Aci>, e164: Option<Phone>, pni: Option<Pni>)
    requires !HoldsArg(c, AciArg(aci)) && !HoldsArg(c, PhoneArg(e164)) && !HoldsArg(c, PniArg(pni))
    ensures OtherEnd(c, c, false, aci, e164, pni)
  {
  }

  lemma NewToAll(b: Book, aci: Option<Aci>, e164: Option<Phone>, id: Id)
    requires AllNew(b, aci, e164) && id in b.contacts
    ensures !HoldsArg(b.contacts[id], AciArg(aci)) && !HoldsArg(b.contacts[id], PhoneArg(e164))
  {
    var us := Given(aci, e164);
    assert aci.Some? ==> AciValue(aci.value) in us;
    assert e164.Some? ==> PhoneValue(e164.value) in us;
  }

  lemma UntouchedOthers(b: Book, found: Id, aci: Option<Aci>, e164: Option<Phone>, pni: Pni)
    requires AllNew(b, aci, e164) && Only(b.contacts, found, PniValue(pni))
    ensures forall id :: id in b.contacts && id != found ==>
              OtherEnd(b.contacts[id], b.contacts[id], false, aci, e164, Some(pni))
  {
    forall id | id in b.contacts && id != found
      ensures OtherEnd(b.contacts[id], b.contacts[id], false, aci, e164, Some(pni))
    {
      NewToAll(b, aci, e164, id);
      UntouchedEnd(b.contacts[id], aci, e164, Some(pni));
    }
  }

  /** The contact found by the PNI took the other values. */
  lemma EndOnFound(b: Book, s: Merge, found: Id, aci: Option<Aci>, e164: Option<Phone>, pni: Pni)
    requires Good(b) && Lookup(b, PniValue(pni)) == Some(found) && found in b.contacts
    requires AllNew(b, aci, e164) && (aci.Some? || e164.Some?)
    requires Taken(b, s, found, aci, e164, pni) && s.target == Some(found)
    ensures var r := Claim(s, found, PniValue(pni), Some(pni));
            r.target == s.target && Outcome(b, Merged(r.book, found, r.handed), aci, e164, Some(pni))
  {
    hide Good, OtherEnd, Lookup, Apply, After, Holds, Stranded, AllNew, Nobody;
    LookupFinds(b, PniValue(pni));
    UntouchedOthers(b, found, aci, e164, pni);
    var c := s.book.contacts[found];
    StrandedHere(b, c, found, aci, e164, pni);
    if c.pni.None? {
      ValueSet(s.book, found, PniValue(pni));
      PniOntoTarget(c, aci, e164, pni);
    }
  }

  lemma StrandedHere(b: Book, c: Contact, found: Id, aci: Option<Aci>, e164: Option<Phone>, pni: Pni)
    requires Good(b) && Lookup(b, PniValue(pni)) == Some(found) && found in b.contacts
    requires AllNew(b, aci, e164) && (aci.Some? || e164.Some?) && TargetNew(b, c, found, found, aci, e164, pni)
    ensures c.pni.None? ==> !Stranded(b, aci, e164, pni)
    ensures c.pni.Some? ==> (Holds(c, PniValue(pni)) <==> !Stranded(b, aci, e164, pni))
  {
    LookupFinds(b, PniValue(pni));
    NewToAll(b, aci, e164, found);
    if aci.Some? {
      LookupFinds(b, AciValue(aci.value));
      assert AciValue(aci.value) in Given(aci, e164);
    }
    hide Good, Lookup, Nobody, Only, AllNew;
  }

  /** A new contact took the other values. */
  lemma EndOnNew(b: Book, s: Merge, found: Id, aci: Option<Aci>, e164: Option<Phone>, pni: Pni)
    requires Good(b) && Lookup(b, PniValue(pni)) == Some(found) && found in b.contacts && b.nextId !in b.contacts
    requires AllNew(b, aci, e164) && Taken(b, s, found, aci, e164, pni) && s.target != Some(found)
    ensures found in s.book.contacts
    ensures var r := Claim(s, found, PniValue(pni), Some(pni));
            && r.target == s.target
            && Outcome(b, Merged(r.book, r.target.value, r.handed), aci, e164, Some(pni))
  {
    hide Good, OtherEnd, Lookup, After, Holds, Stranded, AllNew, Nobody, Claim, Shrunk;
    LookupFinds(b, PniValue(pni));
    UntouchedOthers(b, found, aci, e164, pni);
    var t := s.target.value;
    assert Only(s.book.contacts, found, PniValue(pni));
    ValueMoved(s, found, PniValue(pni), Some(pni));
    PniOntoTarget(s.book.contacts[t], aci, e164, pni);
    var c := s.book.contacts[found];
    NewToAll(b, aci, e164, found);
    TakenOnceIsEnd(After(c, TakeOff(c, PniValue(pni), Some(pni))), c, aci, e164, pni);
    assert !Stranded(b, aci, e164, pni) by { NotStranded(b, found, aci, e164, pni); }
  }

  lemma TakenOnceIsEnd(now: Contact, before: Contact, aci: Option<Aci>, e164: Option<Phone>, pni: Pni)
    requires Holds(before, PniValue(pni)) && Shrunk(now, before) && !Holds(now, PniValue(pni))
    requires !HoldsArg(before, AciArg(aci)) && !HoldsArg(before, PhoneArg(e164))
    ensures OtherEnd(now, before, Empty(now), aci, e164, Some(pni))
  {
  }

  lemma NotStranded(b: Book, found: Id, aci: Option<Aci>, e164: Option<Phone>, pni: Pni)
    requires Good(b) && Lookup(b, PniValue(pni)) == Some(found) && found in b.contacts
    requires aci.Some? ==> b.contacts[found].serviceId != Some(OfPni(pni))
    ensures !Stranded(b, aci, e164, pni)
  {
  }

  /** Only the PNI was passed in, and found. */
  lemma EndFound(b: Book, found: Id, pni: Pni)
    requires Good(b) && Lookup(b, PniValue(pni)) == Some(found)
    ensures found in b.contacts && Outcome(b, Merged(b, found, []), None, None, Some(pni))
  {
    hide Good, OtherEnd, Lookup, Holds;
    LookupFinds(b, PniValue(pni));
    UntouchedOthers(b, found, None, None, pni);
  }

  lemma NotFoundNotStranded(b: Book, aci: Option<Aci>, e164: Option<Phone>, pni: Pni)
    requires Good(b) && Lookup(b, PniValue(pni)) == None
    ensures !Stranded(b, aci, e164, pni)
  {
  }

  lemma WithAllHolds(aci: Option<Aci>, e164: Option<Phone>, pni: Option<Pni>)
    ensures var c := WithAll(aci, e164, pni);
            && (aci.Some? ==> Holds(c, AciValue(aci.value))) && (e164.Some? ==> Holds(c, PhoneValue(e164.value)))
            && (pni.Some? ==> Holds(c, PniValue(pni.value)))
  {
  }

  lemma NotHeld(b: Book, id: Id, pni: Option<Pni>)
    requires id in b.contacts && (pni.Some? ==> Nobody(b.contacts, PniValue(pni.value)))
    ensures pni.Some? ==> !Holds(b.contacts[id], PniValue(pni.value))
  {
  }

  /** Nothing was found: a new contact takes everything. */
  lemma EndCreated(b: Book, aci: Option<Aci>, e164: Option<Phone>, pni: Option<Pni>)
    requires Good(b) && AllNew(b, aci, e164) && (pni.Some? ==> Lookup(b, PniValue(pni.value)) == None)
    ensures Outcome(b, Merged(AddContact(b, WithAll(aci, e164, pni)), b.nextId, []), aci, e164, pni)
  {
    hide Good, OtherEnd, Lookup, AddContact, WithAll, AllNew, Nobody, Stranded, Free;
    if pni.Some? {
      LookupFinds(b, PniValue(pni.value));
      assert !Stranded(b, aci, e164, pni.value) by { NotFoundNotStranded(b, aci, e164, pni.value); }
    }
    NextIsNew(b);
    WithAllHolds(aci, e164, pni);
    forall id | id in b.contacts ensures OtherEnd(b.contacts[id], b.contacts[id], false, aci, e164, pni) {
      NewToAll(b, aci, e164, id);
      assert pni.Some? ==> !Holds(b.contacts[id], PniValue(pni.value)) by { NotHeld(b, id, pni); }
      UntouchedEnd(b.contacts[id], aci, e164, pni);
    }
    hide Holds;
    NewAllFree(b, aci, e164, pni);
    Added(b, WithAll(aci, e164, pni));
  }

  lemma NewAllFree(b: Book, aci: Option<Aci>, e164: Option<Phone>, pni: Option<Pni>)
    requires AllNew(b, aci, e164) && (pni.Some? ==> Nobody(b.contacts, PniValue(pni.value)))
    ensures Free(b, b.nextId, WithAll(aci, e164, pni))
  {
    forall id | id in b.contacts
      ensures !HoldsArg(b.contacts[id], AciArg(aci)) && !HoldsArg(b.contacts[id], PhoneArg(e164))
    {
      NewToAll(b, aci, e164, id);
    }
    hide AllNew;
  }

  // ----- the theorem -----

  lemma MidAfterBoth(b: Book, aci: Option<Aci>, e164: Option<Phone>, pni: Option<Pni>)
    requires Good(b)
    ensures var s1, item := AfterAci(b, aci), ItemFor(b, PhoneArg(e164));
            && ItemFits(item, s1.book) && Fits(s1) && Mid(b, Step(s1, item, pni), aci, e164, pni)
  {
    hide Good, Mid, Lookup;
    AciStep(b, aci, pni);
    if e164.Some? {
      MidAfterPhone(b, aci, e164.value, pni);
    } else {
      MidWithoutPhone(b, aci, pni);
    }
  }

  /** The last step and what comes after the loop. */
  lemma EndAfterMid(b: Book, s: Merge, aci: Option<Aci>, e164: Option<Phone>, pni: Pni)
    requires Good(b) && Mid(b, s, aci, e164, Some(pni))
    ensures var item := ItemFor(b, Some(PniValue(pni)));
            && ItemFits(item, s.book)
            && var r := Step(s, item, Some(pni));
               && (r.target.Some? ==> Outcome(b, Merged(r.book, r.target.value, r.handed), aci, e164, Some(pni)))
               && (r.target.None? ==> r.book == b && r.handed == [] && AllNew(b, aci, e164)
                                      && Lookup(b, PniValue(pni)) == None)
  {
    hide Good, Outcome, Lookup, TargetMid, OtherMid, Claim, Taken, Nobody, Apply;
    LookupFinds(b, PniValue(pni));
    var found := Lookup(b, PniValue(pni));
    if s.target.Some? {
      if found.None? {
        EndUnmatched(b, s, s.target.value, aci, e164, pni);
      } else if found == s.target {
        EndKept(b, s, found.value, aci, e164, pni);
      } else {
        EndMoved(b, s, s.target.value, aci, e164, pni, found.value);
      }
    } else if found.Some? {
      EndWithoutTarget(b, aci, e164, pni, found.value);
    }
  }

  lemma EndWithoutTarget(b: Book, aci: Option<Aci>, e164: Option<Phone>, pni: Pni, found: Id)
    requires Good(b) && AllNew(b, aci, e164) && Lookup(b, PniValue(pni)) == Some(found)
    ensures found in b.contacts
    ensures var us := Given(aci, e164);
            var s := UseAll(Merge(b, None, us, []), found, us, Some(pni)).(unused := []);
            var r := Claim(s, found, PniValue(pni), Some(pni));
            r.target.Some? && Outcome(b, Merged(r.book, r.target.value, r.handed), aci, e164, Some(pni))
  {
    hide Good, Outcome, Lookup, Nobody, Apply, AllNew, UseOne;
    LookupFinds(b, PniValue(pni));
    var us := Given(aci, e164);
    if us == [] {
      EndFound(b, found, pni);
    } else {
      AllTaken(b, found, aci, e164, pni);
      var s := UseAll(Merge(b, None, us, []), found, us, Some(pni)).(unused := []);
      if s.target == Some(found) {
        EndOnFound(b, s, found, aci, e164, pni);
      } else {
        NextIsNew(b);
        EndOnNew(b, s, found, aci, e164, pni);
      }
    }
  }

  lemma NextIsNew(b: Book)
    requires Good(b)
    ensures b.nextId !in b.contacts
  {
  }

  lemma ThreeSteps(b: Book, aci: Option<Aci>, e164: Option<Phone>, pni: Option<Pni>)
    requires Good(b)
    ensures var i1, i2, i3 := ItemFor(b, AciArg(aci)), ItemFor(b, PhoneArg(e164)), ItemFor(b, PniArg(pni));
            var start := Merge(b, None, [], []);
            && ItemFits(i1, b) && ItemFits(i2, Step(start, i1, pni).book)
            && ItemFits(i3, Step(Step(start, i1, pni), i2, pni).book)
            && (forall k :: 0 <= k < 3 ==> ItemFits(Items(b, aci, e164, pni)[k], b))
            && StepAll(start, Items(b, aci, e164, pni), pni) == Step(Step(Step(start, i1, pni), i2, pni), i3, pni)
  {
    hide Good, Lookup, Step;
    ItemsFit(b, aci, e164, pni);
    var items := Items(b, aci, e164, pni);
    var start := Merge(b, None, [], []);
    assert ItemFits(items[0], b) && ItemFits(items[1], b) && ItemFits(items[2], b);
    var s1 := Step(start, items[0], pni);
    var s2 := Step(s1, items[1], pni);
    var s3 := Step(s2, items[2], pni);
    assert items[1..] == [items[1], items[2]] && items[1..][1..] == [items[2]] && items[1..][1..][1..] == [];
    assert StepAll(s3, [], pni) == s3;
    assert StepAll(s2, [items[2]], pni) == s3 by { assert [items[2]][1..] == []; }
    assert StepAll(s1, [items[1], items[2]], pni) == s3 by { assert [items[1], items[2]][1..] == [items[2]]; }
  }

  /** With an ACI, a phone number or a PNI given, and every identifier held by at most one contact
      before: the result holds each identifier given, except a stranded PNI; nobody else holds any;
      the others have at most lost identifiers, and just those that were found and have none left are
      handed over to be merged into the result. Afterwards every identifier is again held by at most
      one contact and listed under it. */
  lemma MergeContactsOutcome(b: Book, aci: Option<Aci>, e164: Option<Phone>, pni: Option<Pni>)
    requires Good(b) && (aci.Some? || e164.Some? || pni.Some?)
    ensures var r := MergeContacts(b, aci, e164, pni);
            r.Some? && Outcome(b, r.value, aci, e164, pni)
  {
    hide Good, Outcome, Lookup, Step, StepAll, Mid, AddContact;
    ThreeSteps(b, aci, e164, pni);
    AciStep(b, aci, pni);
    MidAfterBoth(b, aci, e164, pni);
    var s := Step(AfterAci(b, aci), ItemFor(b, PhoneArg(e164)), pni);
    if pni.Some? {
      EndAfterMid(b, s, aci, e164, pni.value);
    } else if s.target.Some? {
      EndWithoutPni(b, s, s.target.value, aci, e164);
      NoPniStep(b, s);
    } else {
      NoPniStep(b, s);
      NoTargetMid(b, s, aci, e164, pni);
    }
    if StepAll(Merge(b, None, [], []), Items(b, aci, e164, pni), pni).target.None? {
      EndCreated(b, aci, e164, pni);
      IdentifierIsNew(b, aci, e164, pni);
    }
  }

  lemma NoPniStep(b: Book, s: Merge)
    requires Fits(s)
    ensures Step(s, ItemFor(b, PniArg(None)), None) == s
  {
  }

  lemma NoTargetMid(b: Book, s: Merge, aci: Option<Aci>, e164: Option<Phone>, pni: Option<Pni>)
    requires Good(b) && Mid(b, s, aci, e164, pni) && s.target.None?
    ensures s.book == b && s.handed == [] && AllNew(b, aci, e164)
  {
  }

  lemma IdentifierIsNew(b: Book, aci: Option<Aci>, e164: Option<Phone>, pni: Option<Pni>)
    requires Good(b) && AllNew(b, aci, e164) && (pni.Some? ==> Lookup(b, PniValue(pni.value)) == None)
    ensures var v := Identifier(aci, e164, pni); v.Some? ==> Lookup(b, v.value) == None
  {
    var us := Given(aci, e164);
    if aci.Some? {
      assert AciValue(aci.value) in us;
      LookupFinds(b, AciValue(aci.value));
    } else if e164.Some? {
      assert PhoneValue(e164.value) in us;
      LookupFinds(b, PhoneValue(e164.value));
    }
    hide Good, Lookup;
  }

  /** A PNI can be stranded: the one contact has it as its service id, and another one as its PNI. */
  lemma PniCanBeStranded()
    ensures exists b: Book, r: Merged :: Good(b) && MergeContacts(b, Some(5), None, Some(1)) == Some(r)
              && r.conversation in r.book.contacts && !Holds(r.book.contacts[r.conversation], PniValue(1))
  {
    var b := Book(map[0 := Contact(Some(OfPni(1)), None, Some(2))], map[OfPni(1) := 0], map[], map[2 := 0], 1);
    assert Good(b);
    assert Lookup(b, PniValue(1)) == Some(0) && Lookup(b, AciValue(5)) == None;
    assert Stranded(b, Some(5), None, 1);
    hide MergeContacts, Good, Stranded, OtherEnd, Holds;
    MergeContactsOutcome(b, Some(5), None, Some(1));
  }
}
