/** Contacts over any number of calls. */
module ContactMergeRuns {
  import opened Options
  import opened ServiceIds
  import opened Contacts
  import opened ContactMerge
  import opened ContactMergeLaws
  import opened ContactMergeOutcome

  // ----- a PNI in the service id slot is also in the PNI field -----

  predicate Tidy(c: Contact) {
    c.serviceId.Some? && c.serviceId.value.OfPni? ==> c.pni == Some(c.serviceId.value.pni)
  }

  predicate TidyBook(b: Book) {
    forall id :: id in b.contacts ==> Tidy(b.contacts[id])
  }

  lemma ChangesStayTidy(c: Contact, v: Value, pni: Option<Pni>)
    requires Tidy(c)
    ensures Tidy(After(c, SetTo(v)))
    ensures (v.PniValue? ==> pni == Some(v.pni)) ==> Tidy(After(c, TakeOff(c, v, pni)))
  {
  }

  lemma ApplyContacts(b: Book, id: Id, change: Change)
    requires id in b.contacts
    ensures Apply(b, id, change).contacts == b.contacts[id := After(b.contacts[id], change)]
  {
    hide With, Without;
  }

  lemma SetStaysTidy(b: Book, id: Id, v: Value)
    requires TidyBook(b) && id in b.contacts
    ensures TidyBook(Apply(b, id, SetTo(v)))
  {
    hide Apply, After, SetTo, Tidy;
    ApplyContacts(b, id, SetTo(v));
    ChangesStayTidy(b.contacts[id], v, None);
  }

  lemma {:induction false} UnusedStayTidy(s: Merge, found: Id, unused: seq<Value>, pni: Option<Pni>)
    requires Fits(s) && found in s.book.contacts && TidyBook(s.book)
    requires forall v :: v in unused ==> !v.PniValue?
    ensures TidyBook(UseAll(s, found, unused, pni).book)
    decreases |unused|
  {
    hide Apply, Lookup, Suits;
    if unused != [] {
      assert unused[0] in unused;
      var s' := Choose(s, found, unused[0], pni);
      assert TidyBook(s'.book);
      hide Choose, TidyBook;
      SetStaysTidy(s'.book, s'.target.value, unused[0]);
      UnusedStayTidy(UseOne(s, found, unused[0], pni), found, unused[1..], pni);
    }
  }

  lemma ClaimStaysTidy(s: Merge, found: Id, v: Value, pni: Option<Pni>)
    requires Fits(s) && found in s.book.contacts && TidyBook(s.book) && (v.PniValue? ==> pni == Some(v.pni))
    ensures TidyBook(Claim(s, found, v, pni).book)
  {
    hide Apply, After, SetTo, TakeOff, Tidy;
    if s.target.Some? {
      var change := TakeOff(s.book.contacts[found], v, pni);
      ApplyContacts(s.book, found, change);
      ChangesStayTidy(s.book.contacts[found], v, pni);
      assert TidyBook(Apply(s.book, found, change));
      SetStaysTidy(Apply(s.book, found, change), s.target.value, v);
      SetStaysTidy(s.book, found, v);
    }
  }

  lemma StepStaysTidy(s: Merge, item: Item, pni: Option<Pni>)
    requires Fits(s) && ItemFits(item, s.book) && TidyBook(s.book)
    requires forall v :: v in s.unused ==> !v.PniValue?
    requires item.value.Some? && item.value.value.PniValue? ==> pni == Some(item.value.value.pni)
    ensures TidyBook(Step(s, item, pni).book)
    ensures (item.value.Some? ==> !item.value.value.PniValue?) ==>
              forall v :: v in Step(s, item, pni).unused ==> !v.PniValue?
  {
    hide Apply, UseAll, Claim, TidyBook;
    if item.value.Some? && item.found.None? && s.target.Some? {
      SetStaysTidy(s.book, s.target.value, item.value.value);
    } else if item.value.Some? && item.found.Some? {
      UnusedStayTidy(s, item.found.value, s.unused, pni);
      var s' := UseAll(s, item.found.value, s.unused, pni).(unused := []);
      ClaimStaysTidy(s', item.found.value, item.value.value, pni);
      ClaimKeepsUnused(s', item.found.value, item.value.value, pni);
    }
  }

  lemma ClaimKeepsUnused(s: Merge, found: Id, v: Value, pni: Option<Pni>)
    requires Fits(s) && found in s.book.contacts
    ensures Claim(s, found, v, pni).unused == s.unused
  {
  }

  lemma MergeStaysTidy(b: Book, aci: Option<Aci>, e164: Option<Phone>, pni: Option<Pni>)
    requires Good(b) && TidyBook(b)
    ensures var r := MergeContacts(b, aci, e164, pni); r.Some? ==> TidyBook(r.value.book)
  {
    hide Good, Lookup, Step, StepAll, TidyBook;
    ThreeSteps(b, aci, e164, pni);
    var s0 := Merge(b, None, [], []);
    var i1, i2, i3 := ItemFor(b, AciArg(aci)), ItemFor(b, PhoneArg(e164)), ItemFor(b, PniArg(pni));
    StepStaysTidy(s0, i1, pni);
    StepStaysTidy(Step(s0, i1, pni), i2, pni);
    StepStaysTidy(Step(Step(s0, i1, pni), i2, pni), i3, pni);
    AddStaysTidy(StepAll(s0, Items(b, aci, e164, pni), pni).book, aci, e164, pni);
  }

  lemma AddStaysTidy(b: Book, aci: Option<Aci>, e164: Option<Phone>, pni: Option<Pni>)
    requires TidyBook(b)
    ensures TidyBook(AddContact(b, WithAll(aci, e164, pni)))
  {
  }

  // ----- runs -----

  datatype Call = Call(aci: Option<Aci>, e164: Option<Phone>, pni: Option<Pni>)

  predicate HasValue(call: Call) {
    call.aci.Some? || call.e164.Some? || call.pni.Some?
  }

  /** The contacts after one call after the other; a call without a value throws. */
  function AfterCalls(b: Book, calls: seq<Call>): (r: Book)
    requires Good(b)
    ensures Good(r)
    decreases |calls|
  {
    if calls == [] then b
    else if !HasValue(calls[0]) then AfterCalls(b, calls[1..])
    else
      var call := calls[0];
      MergeContactsOutcome(b, call.aci, call.e164, call.pni);
      AfterCalls(MergeContacts(b, call.aci, call.e164, call.pni).value.book, calls[1..])
  }

  lemma {:induction false} RunsStayTidy(b: Book, calls: seq<Call>)
    requires Good(b) && TidyBook(b)
    ensures TidyBook(AfterCalls(b, calls))
    decreases |calls|
  {
    hide Good, MergeContacts, TidyBook;
    if calls != [] {
      var call := calls[0];
      if HasValue(call) {
        MergeContactsOutcome(b, call.aci, call.e164, call.pni);
        MergeStaysTidy(b, call.aci, call.e164, call.pni);
        RunsStayTidy(MergeContacts(b, call.aci, call.e164, call.pni).value.book, calls[1..]);
      } else {
        RunsStayTidy(b, calls[1..]);
      }
    }
  }

  /** After any run, the next call returns a conversation with every identifier that it is given, and
      nobody else has any of them: among contacts whose service id slot never holds a PNI that their
      PNI field does not, a PNI is never stranded. */
  lemma NextCallHoldsAll(b: Book, calls: seq<Call>, call: Call)
    requires Good(b) && TidyBook(b) && HasValue(call)
    ensures var before := AfterCalls(b, calls);
            var r := MergeContacts(before, call.aci, call.e164, call.pni);
            && r.Some? && Outcome(before, r.value, call.aci, call.e164, call.pni)
            && r.value.conversation in r.value.book.contacts
            && var c := r.value.book.contacts[r.value.conversation];
               && (call.aci.Some? ==> Holds(c, AciValue(call.aci.value)))
               && (call.e164.Some? ==> Holds(c, PhoneValue(call.e164.value)))
               && (call.pni.Some? ==> Holds(c, PniValue(call.pni.value)))
  {
    hide Good, MergeContacts, TidyBook, OtherEnd, Holds, Stranded, AfterCalls;
    var before := AfterCalls(b, calls);
    RunsStayTidy(b, calls);
    MergeContactsOutcome(before, call.aci, call.e164, call.pni);
    if call.pni.Some? {
      TidyNotStranded(before, call.aci, call.e164, call.pni.value);
    }
  }

  lemma TidyNotStranded(b: Book, aci: Option<Aci>, e164: Option<Phone>, pni: Pni)
    requires Good(b) && TidyBook(b)
    ensures !Stranded(b, aci, e164, pni)
  {
    LookupFinds(b, PniValue(pni));
    hide Good, Lookup;
  }
}
