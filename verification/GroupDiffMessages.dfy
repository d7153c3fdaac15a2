/** Which details a group change is told with, when it is not told at all, and which message it
    makes. */
module GroupDiffMessages {
  import opened Options
  import opened ServiceIds
  import opened Dicts
  import opened GroupDetails
  import opened GroupApply
  import opened GroupDiff
  import opened GroupDiffLaws

  // ----- what the member pass tells -----

  /** Some detail tells that `aci` joined. */
  ghost predicate ToldAsJoined(ds: seq<Detail>, aci: Aci) {
    exists d :: d in ds && KindOf(d) == Joins && d.aci == aci
  }

  /** The detail that a member with an old and a new record, or only a new one, may show as. */
  predicate ChangedRole(l: Lookups, ms: Dict<Aci, Member>, aci: Aci, role: nat) {
    && Has(l.members, aci) && Has(ms, aci)
    && Get(ms, aci).value.role == role && Get(l.members, aci).value.role != role
  }

  lemma MemberDetailTells(l: Lookups, aci: Aci, m: Member, other: Aci, role: nat)
    ensures ToldAsJoined(MemberDetail(l, aci, m), other) <==> other == aci && !Has(l.members, aci)
    ensures MemberPrivilege(other, role) in MemberDetail(l, aci, m) <==>
              other == aci && Has(l.members, aci) && Get(l.members, aci).value.role != m.role && role == m.role
  {
    hide Invitation;
    if !Has(l.members, aci) {
      assert JoinDetail(l, aci, m) in MemberDetail(l, aci, m);
    }
  }

  lemma ToldInEither(ds: seq<Detail>, es: seq<Detail>, aci: Aci)
    ensures ToldAsJoined(ds + es, aci) <==> ToldAsJoined(ds, aci) || ToldAsJoined(es, aci)
  {
    hide KindOf;
    assert forall d :: d in ds + es <==> d in ds || d in es;
  }

  /** The members told as new are those who are, and the roles told are those that changed. */
  lemma {:induction false} MembersTold(l: Lookups, ms: Dict<Aci, Member>, aci: Aci, role: nat)
    requires Unique(ms)
    ensures ToldAsJoined(MemberDetails(l, ms), aci) <==> aci in Keys(ms) - Keys(l.members)
    ensures MemberPrivilege(aci, role) in MemberDetails(l, ms) <==> ChangedRole(l, ms, aci, role)
    decreases |ms|
  {
    hide MemberDetail, AccountFor, ToldAsJoined, Remove;
    if ms == [] {
      assert !ToldAsJoined([], aci) by { NothingTold(aci); }
    } else {
      var first, m, rest := ms[0].key, ms[0].value, ms[1..];
      var l1 := AccountFor(l, first);
      AccountForSpec(l, first);
      AccountForMembers(l, first, aci);
      MembersTold(l1, rest, aci, role);
      MemberDetailTells(l, first, m, aci, role);
      ToldInEither(MemberDetail(l, first, m), MemberDetails(l1, rest), aci);
    }
  }

  lemma NothingTold(aci: Aci)
    ensures !ToldAsJoined([], aci)
  {
  }

  lemma AccountForMembers(l: Lookups, first: Aci, aci: Aci)
    ensures Get(AccountFor(l, first).members, aci) == if aci == first then None else Get(l.members, aci)
  {
    RemoveGet(l.members, first, aci);
    hide Get, Remove, Has;
  }

  // ----- how a member is told to have joined -----

  /** The kind of a join is borne out: an invitation of the ACI or of its PNI, from that inviter; or
      else what the member's record says. */
  ghost predicate Justified(l: Lookups, ms: Dict<Aci, Member>, d: Detail) {
    match d
    case MemberAddFromInvite(aci, inviter) =>
      aci in Keys(ms) && exists id: ServiceId :: Invited(l, aci, id, inviter)
    case MemberAddFromLink(aci) => Has(ms, aci) && Get(ms, aci).value.joinedFromLink && !Has(l.pending, OfAci(aci))
    case MemberAddFromAdminApproval(aci) =>
      Has(ms, aci) && Get(ms, aci).value.approvedByAdmin && !Get(ms, aci).value.joinedFromLink
      && !Has(l.pending, OfAci(aci))
    case MemberAdd(aci) =>
      Has(ms, aci) && !Get(ms, aci).value.approvedByAdmin && !Get(ms, aci).value.joinedFromLink
      && !Has(l.pending, OfAci(aci))
    case _ => true
  }

  predicate Invited(l: Lookups, aci: Aci, id: ServiceId, inviter: Option<Aci>) {
    && (id == OfAci(aci) || (Has(l.pnis, aci) && id == OfPni(Get(l.pnis, aci).value)))
    && Has(l.pending, id) && Get(l.pending, id).value.addedBy == inviter
  }

  lemma MemberJustified(l: Lookups, ms: Dict<Aci, Member>, aci: Aci, m: Member, d: Detail)
    requires Get(ms, aci) == Some(m) && d in MemberDetail(l, aci, m)
    ensures Justified(l, ms, d)
  {
    hide Keys, Get;
    if Has(l.pending, OfAci(aci)) {
      assert Invited(l, aci, OfAci(aci), Get(l.pending, OfAci(aci)).value.addedBy);
    } else if Has(l.pnis, aci) && Has(l.pending, OfPni(Get(l.pnis, aci).value)) {
      var id := OfPni(Get(l.pnis, aci).value);
      assert Invited(l, aci, id, Get(l.pending, id).value.addedBy);
    }
  }

  /** What is left of the old invitations is as it was, and an ACI's own stays until it is met. */
  lemma AccountForInvites(l: Lookups, first: Aci, id: ServiceId)
    ensures var l' := AccountFor(l, first);
            && (Has(l'.pending, id) ==> Get(l'.pending, id) == Get(l.pending, id))
            && (id.OfAci? && id.aci != first ==> Get(l'.pending, id) == Get(l.pending, id))
  {
    if UsesPni(l, first) {
      RemoveGet(l.pending, OfPni(Get(l.pnis, first).value), id);
      RemoveGet(Remove(l.pending, OfPni(Get(l.pnis, first).value)), OfAci(first), id);
    } else {
      RemoveGet(l.pending, OfAci(first), id);
    }
    hide Get, Remove;
  }

  lemma JustifiedEarlier(l: Lookups, ms: Dict<Aci, Member>, d: Detail)
    requires ms != [] && Unique(ms) && Justified(AccountFor(l, ms[0].key), ms[1..], d)
    ensures Justified(l, ms, d)
  {
    var first := ms[0].key;
    var l1 := AccountFor(l, first);
    forall id ensures Has(l1.pending, id) ==> Get(l1.pending, id) == Get(l.pending, id) {
      AccountForInvites(l, first, id);
    }
    if d.MemberAddFromInvite? {
      var id: ServiceId :| Invited(l1, d.aci, id, d.inviter);
      assert Invited(l, d.aci, id, d.inviter) by { hide Get, AccountFor; }
    } else if d.MemberAddFromLink? || d.MemberAddFromAdminApproval? || d.MemberAdd? {
      AccountForInvites(l, first, OfAci(d.aci));
      assert d.aci != first;
    }
  }

  /** Every join is told as what it was. */
  lemma {:induction false} JoinsJustified(l: Lookups, ms: Dict<Aci, Member>, d: Detail)
    requires Unique(ms) && d in MemberDetails(l, ms)
    ensures Justified(l, ms, d)
    decreases |ms|
  {
    hide MemberDetail, AccountFor, Justified;
    var first, rest := ms[0].key, ms[1..];
    if d in MemberDetail(l, first, ms[0].value) {
      MemberJustified(l, ms, first, ms[0].value, d);
    } else {
      JoinsJustified(AccountFor(l, first), rest, d);
      JustifiedEarlier(l, ms, d);
    }
  }

  // ----- silence -----

  predicate SameFields(a: Group, b: Group) {
    && (a.accessControl.Some? && b.accessControl.Some? ==>
          a.accessControl.value.attributes == b.accessControl.value.attributes
          && a.accessControl.value.members == b.accessControl.value.members)
    && LinkEnabled(a) == LinkEnabled(b) && (LinkEnabled(a) ==> Link(a) == Link(b))
    && a.avatar == b.avatar && a.name == b.name && a.description == b.description
    && (Truthy(a.password) && Truthy(b.password) ==> a.password == b.password)
    && a.announcementsOnly == b.announcementsOnly
  }

  /** A reader sees no difference: the fields told about agree, the same members have the same
      roles, and who is invited or asks to join is who was, less the members. */
  ghost predicate LooksTheSame(a: Group, b: Group) {
    && SameFields(a, b)
    && Keys(a.members) == Keys(b.members)
    && (forall aci :: aci in Keys(b.members) ==> Get(a.members, aci).value.role == Get(b.members, aci).value.role)
    && (forall id :: id in Keys(b.pending) <==> id in Keys(a.pending) && !(id.OfAci? && id.aci in Keys(a.members)))
    && Keys(b.approvals) == Keys(a.approvals) - Keys(a.members)
  }

  lemma {:induction false} MembersSilent(l: Lookups, ms: Dict<Aci, Member>)
    requires Unique(ms)
    ensures MemberDetails(l, ms) == [] <==>
              Keys(ms) <= Keys(l.members)
              && forall aci :: aci in Keys(ms) ==> Get(l.members, aci).value.role == Get(ms, aci).value.role
    decreases |ms|
  {
    hide AccountFor, JoinDetail, Remove;
    if ms != [] {
      var first, rest := ms[0].key, ms[1..];
      AccountForSpec(l, first);
      forall aci ensures Get(AccountFor(l, first).members, aci) == if aci == first then None else Get(l.members, aci) {
        AccountForMembers(l, first, aci);
      }
      MembersSilent(AccountFor(l, first), rest);
    }
  }

  lemma FieldsSilent(a: Group, b: Group)
    ensures SameFields(a, b) <==>
              && AccessDetails(a, b) + LinkDetails(a, b) + TextDetails(a, b) == []
              && One(a.announcementsOnly != b.announcementsOnly, AnnouncementsOnly(b.announcementsOnly)) == []
  {
  }

  lemma PassesSilent(l: Lookups, b: Group)
    requires Unique(l.members) && Unique(l.pending) && Unique(l.approvals) && UniqueLists(b)
    ensures var l' := AfterMembers(l, b.members);
            ListDetails(l, b) == [] <==>
              MemberDetails(l, b.members) == [] && Keys(l'.members) == {}
              && Keys(l'.pending) == Keys(b.pending) && Keys(l'.approvals) == Keys(b.approvals)
  {
    hide MemberDetails, AfterMembers, NewIds, Gone, Unique;
    var l' := AfterMembers(l, b.members);
    AfterMembersSpec(l, b.members);
    EmptyIffNoKeys(l'.members);
    SameIds(l'.pending, b.pending);
    SameIds(l'.approvals, b.approvals);
    hide Keys;
  }

  lemma EmptyIffNoKeys<K, V>(d: Dict<K, V>)
    ensures d == [] <==> Keys(d) == {}
  {
  }

  lemma SameIds<K, V, W>(lookup: Dict<K, V>, now: Dict<K, W>)
    requires Unique(lookup) && Unique(now)
    ensures NewIds(lookup, now) == [] && Gone(lookup, now) == [] <==> Keys(lookup) == Keys(now)
  {
    hide NewIds, Gone, Unique;
    GoneIds(lookup, now);
    AddedIds(lookup, now);
    EmptyIffNoKeys(Gone(lookup, now));
    hide Keys;
    if NewIds(lookup, now) != [] {
      assert NewIds(lookup, now)[0] in NewIds(lookup, now);
    }
  }

  /** Two states with unique lists have no details between them exactly when they look the same. */
  lemma SilentIff(a: Group, b: Group, pnis: Dict<Aci, Pni>)
    requires UniqueLists(a) && UniqueLists(b)
    ensures Details(a, b, pnis) == [] <==> LooksTheSame(a, b)
  {
    hide AccessDetails, LinkDetails, TextDetails, One, ListDetails, Start, SameFields, MemberDetails, AfterMembers;
    hide Keys, Unique, Get;
    var l := Start(a, b, pnis);
    StartIsUnique(a, b, pnis);
    FieldsSilent(a, b);
    PassesSilent(l, b);
    MembersSilent(l, b.members);
    AfterMembersSpec(l, b.members);
    if MemberDetails(l, b.members) == [] {
      forall id ensures TakenUp(l, Keys(b.members), id) <==> id.OfAci? && id.aci in Keys(b.members) {
        hide Has;
        forall aci | aci in Keys(b.members) ensures !UsesPni(l, aci) {
          assert Has(l.members, aci) by { HasKey(l.members, aci); }
        }
      }
    }
    NothingLess(Keys(a.members), Keys(b.members));
  }

  lemma NothingLess<T>(s: set<T>, t: set<T>)
    ensures s - t == {} <==> s <= t
  {
    assert s <= t ==> s - t == {};
    assert s - t == {} ==> forall x :: x in s ==> x in t || x in s - t;
  }

  lemma HasKey<K, V>(d: Dict<K, V>, k: K)
    requires k in Keys(d)
    ensures Has(d, k)
  {
  }

  /** A group differs from itself exactly when someone is at once a member and invited by ACI, or a
      member and asking to join. */
  lemma SelfDiffIff(g: Group, pnis: Dict<Aci, Pni>)
    requires UniqueLists(g)
    ensures Details(g, g, pnis) == [] <==>
              forall aci :: aci in Keys(g.members) ==> OfAci(aci) !in Keys(g.pending) && aci !in Keys(g.approvals)
  {
    hide Details, Keys, Get, SameFields;
    SilentIff(g, g, pnis);
    SameFieldsSelf(g);
    if LooksTheSame(g, g) {
      forall aci | aci in Keys(g.members) ensures OfAci(aci) !in Keys(g.pending) && aci !in Keys(g.approvals) {
        if OfAci(aci) in Keys(g.pending) {
          assert false;
        }
      }
    } else if forall aci :: aci in Keys(g.members) ==> OfAci(aci) !in Keys(g.pending) && aci !in Keys(g.approvals) {
      assert Keys(g.approvals) == Keys(g.approvals) - Keys(g.members);
      assert false;
    }
  }

  lemma SameFieldsSelf(g: Group)
    ensures SameFields(g, g)
  {
  }

  // ----- the message -----

  lemma {:induction false} KeptAppend(us: Us, ds: seq<Detail>, es: seq<Detail>)
    ensures KeepOurAdds(us, ds + es) == KeepOurAdds(us, ds) + KeepOurAdds(us, es)
  {
    if ds == [] {
      assert ds + es == es;
    } else {
      assert (ds + es)[1..] == ds[1..] + es;
      KeptAppend(us, ds[1..], es);
      hide OurAdd, One;
    }
  }

  lemma {:induction false} NoneKept(us: Us, ds: seq<Detail>)
    requires forall d :: d in ds ==> KindOf(d) != Joins
    ensures KeepOurAdds(us, ds) == []
  {
    if ds != [] {
      assert KindOf(ds[0]) != Joins;
      NoneKept(us, ds[1..]);
    }
  }

  lemma KeptOfMember(us: Us, l: Lookups, aci: Aci, m: Member)
    ensures |KeepOurAdds(us, MemberDetail(l, aci, m))| == if aci == us.aci && !Has(l.members, aci) then 1 else 0
  {
    hide Invitation;
    var ds := MemberDetail(l, aci, m);
    if ds != [] {
      assert ds[1..] == [];
    }
  }

  lemma {:induction false} KeptOfMembers(us: Us, l: Lookups, ms: Dict<Aci, Member>)
    requires Unique(ms)
    ensures |KeepOurAdds(us, MemberDetails(l, ms))| == if us.aci in Keys(ms) - Keys(l.members) then 1 else 0
    decreases |ms|
  {
    hide MemberDetail, AccountFor, Remove, OurAdd;
    if ms != [] {
      var first, m, rest := ms[0].key, ms[0].value, ms[1..];
      AccountForSpec(l, first);
      KeptOfMembers(us, AccountFor(l, first), rest);
      KeptOfMember(us, l, first, m);
      KeptAppend(us, MemberDetail(l, first, m), MemberDetails(AccountFor(l, first), rest));
      hide KeepOurAdds;
    }
  }

  lemma KeptOfLists(us: Us, l: Lookups, b: Group)
    requires Unique(b.members)
    ensures |KeepOurAdds(us, ListDetails(l, b))| == if us.aci in Keys(b.members) - Keys(l.members) then 1 else 0
  {
    hide MemberDetails, AfterMembers, NewIds, Gone, KeepOurAdds, Keys, Unique, OurAdd;
    var l' := AfterMembers(l, b.members);
    var rest := MemberRemoves(l'.members)
                + PendingAdds(NewIds(l'.pending, b.pending)) + PendingRemoves(Gone(l'.pending, b.pending))
                + ApprovalAdds(NewIds(l'.approvals, b.approvals)) + ApprovalRemoves(Gone(l'.approvals, b.approvals));
    KeptOfMembers(us, l, b.members);
    NoneKept(us, rest);
    KeptAppend(us, MemberDetails(l, b.members), rest);
    hide MemberRemoves, PendingAdds, PendingRemoves, ApprovalAdds, ApprovalRemoves;
    assert ListDetails(l, b) == MemberDetails(l, b.members) + rest;
  }

  lemma KeptOfFields(us: Us, a: Group, b: Group)
    ensures KeepOurAdds(us, AccessDetails(a, b) + LinkDetails(a, b) + TextDetails(a, b)) == []
    ensures var only := AnnouncementsOnly(b.announcementsOnly);
            KeepOurAdds(us, One(a.announcementsOnly != b.announcementsOnly, only)) == []
  {
    hide KeepOurAdds;
    NoneKept(us, AccessDetails(a, b));
    NoneKept(us, LinkDetails(a, b));
    NoneKept(us, TextDetails(a, b));
    KeptAppend(us, AccessDetails(a, b), LinkDetails(a, b));
    KeptAppend(us, AccessDetails(a, b) + LinkDetails(a, b), TextDetails(a, b));
    NoneKept(us, One(a.announcementsOnly != b.announcementsOnly, AnnouncementsOnly(b.announcementsOnly)));
  }

  /** We are told as added at most once, and exactly when we are a new member. */
  lemma KeptOfDetails(us: Us, a: Group, b: Group, pnis: Dict<Aci, Pni>)
    requires Unique(b.members)
    ensures |KeepOurAdds(us, Details(a, b, pnis))| == if us.aci in Keys(b.members) - Keys(a.members) then 1 else 0
  {
    hide AccessDetails, LinkDetails, TextDetails, One, ListDetails, KeepOurAdds, Keys, Unique, OurAdd, FromPairs;
    var d1, d2 := AccessDetails(a, b) + LinkDetails(a, b) + TextDetails(a, b), ListDetails(Start(a, b, pnis), b);
    KeptOfFields(us, a, b);
    FromPairsSpec(a.members);
    KeptOfLists(us, Start(a, b, pnis), b);
    KeptAppend(us, d1, d2);
    KeptAppend(us, d1 + d2, One(a.announcementsOnly != b.announcementsOnly, AnnouncementsOnly(b.announcementsOnly)));
  }

  /** The source's assertion of a single self-add fails exactly when a group without a revision has
      us as a member before and after, and none of the earlier kinds of first message applies. */
  lemma ThrowsIff(a: Group, b: Group, us: Us, source: Option<ServiceId>, drop: bool, promoted: Dict<Aci, Pni>)
    requires Unique(b.members)
    ensures DiffOf(a, b, us, source, drop, promoted).None? <==>
              && a.revision.None? && us.aci in Keys(a.members) && us.aci in Keys(b.members)
              && InvitedAs(us, b).None? && us.aci !in Keys(b.approvals) && !drop
              && !(b.revision == Some(0) && source == Some(OfAci(us.aci)))
  {
    hide KeepOurAdds, Details, From, WhoInvitedUs, InvitedAs, Keys, Unique, AllPnis;
    KeptOfDetails(us, a, b, AllPnis(us, promoted));
  }

  /** For a known group there is always a result. Its message is absent exactly when the states look
      the same; it holds every detail unless we just joined, and then our own addition and, in place
      of any other details, a summary. */
  lemma KnownGroupMessage(a: Group, b: Group, us: Us, source: Option<ServiceId>, drop: bool, promoted: Dict<Aci, Pni>)
    requires UniqueLists(a) && UniqueLists(b) && a.revision.Some?
    ensures var r := DiffOf(a, b, us, source, drop, promoted);
            var joined := us.aci in Keys(b.members) - Keys(a.members);
            var details := Details(a, b, AllPnis(us, promoted));
            && r.Some?
            && (r.value.note.None? <==> LooksTheSame(a, b))
            && (r.value.note.Some? && !joined ==> r.value.note.value.details == details)
            && (r.value.note.Some? && joined ==>
                  var told := r.value.note.value.details;
                  && |told| == (if |details| > 1 then 2 else 1)
                  && told[0] in details && OurAdd(us, told[0])
                  && (|told| == 2 ==> told[1] == Summary))
  {
    hide KeepOurAdds, Details, From, LooksTheSame, Keys, Unique, AllPnis, OurAdd, WhoInvitedUs, TimerNotice;
    var details := Details(a, b, AllPnis(us, promoted));
    SilentIff(a, b, AllPnis(us, promoted));
    KeptOfDetails(us, a, b, AllPnis(us, promoted));
    KeptIsOurs(us, details);
    if us.aci in Keys(b.members) - Keys(a.members) && details == [] {
      assert KeepOurAdds(us, details) == [] by { KeptOfNothing(us); }
    }
  }

  lemma KeptOfNothing(us: Us)
    ensures KeepOurAdds(us, []) == []
  {
  }

  lemma {:induction false} KeptIsOurs(us: Us, ds: seq<Detail>)
    ensures forall d :: d in KeepOurAdds(us, ds) ==> d in ds && OurAdd(us, d)
  {
    if ds != [] {
      KeptIsOurs(us, ds[1..]);
    }
  }

  /** A single thing that a first message may tell: that we are invited, under an id of ours that is;
      that we asked to join; that the group was created; or that we were added. */
  predicate FirstThing(b: Group, us: Us, d: Detail) {
    || (d.PendingAddOne? && IsUs(us, d.serviceId) && Has(b.pending, d.serviceId))
    || (d == ApprovalAddOne(us.aci) && Has(b.approvals, us.aci))
    || (d == Create && b.revision == Some(0))
    || (OurAdd(us, d) && Has(b.members, us.aci))
  }

  /** The first message about a group that concerns us in any way, or that is new, tells one such thing
      and nothing else, unless only a join was to be dropped. */
  lemma FirstMessageTellsOneThing(a: Group, b: Group, us: Us, source: Option<ServiceId>, drop: bool,
                                  promoted: Dict<Aci, Pni>)
    requires a.revision.None? && Unique(b.members)
    requires InvitedAs(us, b).Some? || Has(b.approvals, us.aci) || Has(b.members, us.aci) || b.revision == Some(0)
    ensures var r := DiffOf(a, b, us, source, drop, promoted);
            r.Some? ==>
              && (r.value.note.None? <==> drop && InvitedAs(us, b).None? && !Has(b.approvals, us.aci))
              && (r.value.note.Some? ==>
                    |r.value.note.value.details| == 1 && FirstThing(b, us, r.value.note.value.details[0]))
  {
    hide KeepOurAdds, Details, From, WhoInvitedUs, Has, Unique, AllPnis, OurAdd, TimerNotice;
    var details := Details(a, b, AllPnis(us, promoted));
    KeptIsOurs(us, details);
    var kept := KeepOurAdds(us, details);
    if |kept| == 1 {
      assert kept[0] in kept;
    }
  }
}
