/** What the details of a group change say is true: each kind of detail is there exactly when it should
    be, and it names the current values. */
module GroupTold {
  import opened Options
  import opened ServiceIds
  import opened Dicts
  import opened GroupDetails
  import opened GroupApply
  import opened GroupDiff
  import opened GroupDiffLaws
  import opened GroupDiffMessages

  // ----- attributes -----

  /** Anybody with the link may join, or ask an administrator to. */
  predicate JoinableByLink(g: Group) {
    match g.accessControl
    case None => false
    case Some(c) => c.addFromInviteLink == ACCESS_ANY || c.addFromInviteLink == ACCESS_ADMINISTRATOR
  }

  predicate Blank(s: Option<string>) {
    match s
    case None => true
    case Some(t) => t == ""
  }

  /** The detail on an attribute tells of a difference, and tells the current value. */
  predicate AttributeTold(a: Group, b: Group, d: Detail) {
    match d
    case AccessAttributes(p) =>
      a.accessControl.Some? && b.accessControl.Some? && a.accessControl.value.attributes != p
      && b.accessControl.value.attributes == p
    case AccessMembers(p) =>
      a.accessControl.Some? && b.accessControl.Some? && a.accessControl.value.members != p
      && b.accessControl.value.members == p
    case GroupLinkAdd(p) =>
      !JoinableByLink(a) && JoinableByLink(b) && b.accessControl.value.addFromInviteLink == p
    case GroupLinkRemove => JoinableByLink(a) && !JoinableByLink(b)
    case AccessInviteLink(p) =>
      JoinableByLink(a) && JoinableByLink(b) && a.accessControl.value.addFromInviteLink != p
      && b.accessControl.value.addFromInviteLink == p
    case GroupLinkReset => !Blank(a.password) && !Blank(b.password) && a.password != b.password
    case AvatarChange(removed) => a.avatar != b.avatar && (removed <==> b.avatar == None)
    case Title(title) => a.name != b.name && title == b.name
    case Description(removed, text) =>
      a.description != b.description && text == b.description && (removed <==> Blank(b.description))
    case AnnouncementsOnly(now) => a.announcementsOnly != b.announcementsOnly && now == b.announcementsOnly
    case _ => false
  }

  lemma AttributesTold(a: Group, b: Group, d: Detail)
    ensures d in AccessDetails(a, b) + LinkDetails(a, b) + TextDetails(a, b)
                 + One(a.announcementsOnly != b.announcementsOnly, AnnouncementsOnly(b.announcementsOnly))
            <==> AttributeTold(a, b, d)
  {
    AccessTold(a, b, d);
    LinkTold(a, b, d);
    TextTold(a, b, d);
    hide AccessDetails, LinkDetails, TextDetails, JoinableByLink, Blank;
  }

  lemma AccessTold(a: Group, b: Group, d: Detail)
    ensures d in AccessDetails(a, b) <==> (d.AccessAttributes? || d.AccessMembers?) && AttributeTold(a, b, d)
  {
  }

  lemma LinkTold(a: Group, b: Group, d: Detail)
    ensures d in LinkDetails(a, b) <==>
              (d.GroupLinkAdd? || d.GroupLinkRemove? || d.AccessInviteLink?) && AttributeTold(a, b, d)
  {
  }

  lemma TextTold(a: Group, b: Group, d: Detail)
    ensures d in TextDetails(a, b) <==>
              (d.AvatarChange? || d.Title? || d.GroupLinkReset? || d.Description?) && AttributeTold(a, b, d)
  {
    hide JoinableByLink;
  }

  // ----- lists -----

  lemma {:induction false} MemberDetailKinds(l: Lookups, ms: Dict<Aci, Member>, d: Detail)
    requires d in MemberDetails(l, ms)
    ensures d.MemberPrivilege? || KindOf(d) == Joins
    decreases |ms|
  {
    hide Invitation, AccountFor;
    if d !in MemberDetail(l, ms[0].key, ms[0].value) {
      MemberDetailKinds(AccountFor(l, ms[0].key), ms[1..], d);
    }
  }

  lemma MemberRemovesTold(gone: Dict<Aci, Member>, aci: Aci)
    ensures MemberRemove(aci) in MemberRemoves(gone) <==> aci in Keys(gone)
  {
    var ds := MemberRemoves(gone);
    if aci in Keys(gone) {
      var i := FindKey(gone, aci);
      assert ds[i] == MemberRemove(aci);
    }
    if MemberRemove(aci) in ds {
      var i :| 0 <= i < |ds| && ds[i] == MemberRemove(aci);
      KeyAt(gone, i);
    }
  }

  lemma RequestsTold(added: seq<Aci>, gone: Dict<Aci, nat>, aci: Aci)
    ensures ApprovalAddOne(aci) in ApprovalAdds(added) <==> aci in added
    ensures ApprovalRemoveOne(aci) in ApprovalRemoves(gone) <==> aci in Keys(gone)
  {
    var ds, es := ApprovalAdds(added), ApprovalRemoves(gone);
    if aci in added {
      var i :| 0 <= i < |added| && added[i] == aci;
      assert ds[i] == ApprovalAddOne(aci);
    }
    if aci in Keys(gone) {
      var i := FindKey(gone, aci);
      assert es[i] == ApprovalRemoveOne(aci);
    }
    if ApprovalRemoveOne(aci) in es {
      var i :| 0 <= i < |es| && es[i] == ApprovalRemoveOne(aci);
      KeyAt(gone, i);
    }
  }

  // ----- invitations that came and went -----

  /** The old invitations that no present member took up. */
  ghost function Untaken(a: Group, b: Group, pnis: Dict<Aci, Pni>): set<ServiceId> {
    Keys(a.pending) - Accepted(a, b, pnis)
  }

  ghost function NewInvites(a: Group, b: Group, pnis: Dict<Aci, Pni>): set<ServiceId> {
    Keys(b.pending) - Untaken(a, b, pnis)
  }

  ghost function GoneInvites(a: Group, b: Group, pnis: Dict<Aci, Pni>): set<ServiceId> {
    Untaken(a, b, pnis) - Keys(b.pending)
  }

  /** Somebody who was neither a member nor invited by ACI, and goes with `pni`. */
  predicate NewByPni(a: Group, pnis: Dict<Aci, Pni>, aci: Aci, pni: Pni) {
    aci !in Keys(a.members) && OfAci(aci) !in Keys(a.pending) && Get(pnis, aci) == Some(pni)
  }

  /** An old invitation was taken up: its ACI is a member, or it was for the PNI of a new member whose
      ACI was not invited, and it does not stand any more. */
  lemma AcceptedIff(a: Group, b: Group, pnis: Dict<Aci, Pni>, id: ServiceId)
    requires UniqueLists(a)
    ensures id in Accepted(a, b, pnis) <==>
              && id in Keys(a.pending)
              && match id
                 case OfAci(aci) => aci in Keys(b.members)
                 case OfPni(pni) =>
                   id !in Keys(b.pending)
                   && exists aci :: aci in Keys(b.members) && NewByPni(a, pnis, aci, pni)
  {
    StartIsUnique(a, b, pnis);
    hide Keys, Unique, FromPairs, Start;
    if id.OfPni? && id in Keys(a.pending) && id !in Keys(b.pending) {
      if aci :| aci in Keys(b.members) && NewByPni(a, pnis, aci, id.pni) {
        assert UsesPni(Start(a, b, pnis), aci);
      }
    }
  }

  lemma {:induction false} GoneGet<K, V, W>(lookup: Dict<K, V>, now: Dict<K, W>, k: K)
    ensures Get(Gone(lookup, now), k) == if k in Keys(now) then None else Get(lookup, k)
    decreases |now|
  {
    if now != [] {
      GoneGet(Remove(lookup, now[0].key), now[1..], k);
      RemoveGet(lookup, now[0].key, k);
      hide Get, Remove;
    }
  }

  lemma {:induction false} AfterMembersInvites(l: Lookups, ms: Dict<Aci, Member>, id: ServiceId)
    ensures Has(AfterMembers(l, ms).pending, id) ==> Get(AfterMembers(l, ms).pending, id) == Get(l.pending, id)
    decreases |ms|
  {
    if ms != [] {
      AccountForInvites(l, ms[0].key, id);
      AfterMembersInvites(AccountFor(l, ms[0].key), ms[1..], id);
      hide Get, AccountFor;
    }
  }

  lemma OneOf<T>(s: seq<T>, ids: set<T>)
    requires (forall x :: x in s <==> x in ids) && |s| == |ids|
    ensures |s| == 1 ==> ids == {s[0]}
    ensures forall x :: ids == {x} ==> |s| == 1 && s[0] == x
  {
    if |s| == 1 {
      assert s[0] in ids && forall x :: x in ids ==> x == s[0];
    }
    forall x | ids == {x} ensures |s| == 1 && s[0] == x {
      assert |ids| == 1;
      assert s[0] in s;
    }
  }

  /** New invitations: one is told with its id, several with their number. */
  lemma InvitesTold(a: Group, b: Group, pnis: Dict<Aci, Pni>, id: ServiceId, n: nat)
    requires UniqueLists(a) && UniqueLists(b)
    ensures var l' := AfterMembers(Start(a, b, pnis), b.members);
            var ds := PendingAdds(NewIds(l'.pending, b.pending));
            && (PendingAddOne(id) in ds <==> NewInvites(a, b, pnis) == {id})
            && (PendingAddMany(n) in ds <==> |NewInvites(a, b, pnis)| == n > 1)
  {
    hide Start, AfterMembers, NewIds, Keys, Unique, UsesPni, TakenUp, Accepted;
    var l := Start(a, b, pnis);
    StartIsUnique(a, b, pnis);
    var l' := AfterMembers(l, b.members);
    AfterMembersSpec(l, b.members);
    AcceptedRest(a, b, pnis, Keys(l'.pending));
    AddedIds(l'.pending, b.pending);
    OneOf(NewIds(l'.pending, b.pending), NewInvites(a, b, pnis));
  }

  /** The inviter told with several withdrawals: the one that they share, if they do. */
  ghost predicate SharedInviter(pending: Dict<ServiceId, PendingMember>, ids: set<ServiceId>, inviter: Option<Aci>)
    requires ids <= Keys(pending)
  {
    if forall i, j :: i in ids && j in ids ==> Get(pending, i).value.addedBy == Get(pending, j).value.addedBy
    then forall i :: i in ids ==> Get(pending, i).value.addedBy == inviter
    else inviter == None
  }

  lemma UntakenIsOld(a: Group, b: Group, pnis: Dict<Aci, Pni>)
    ensures GoneInvites(a, b, pnis) <= Keys(a.pending)
  {
  }

  /** Withdrawals: one is told with its id and its inviter, several with their number and a shared
      inviter. */
  lemma WithdrawalsTold(a: Group, b: Group, pnis: Dict<Aci, Pni>, id: ServiceId, n: nat, inviter: Option<Aci>)
    requires UniqueLists(a) && UniqueLists(b)
    ensures GoneInvites(a, b, pnis) <= Keys(a.pending)
    ensures var l' := AfterMembers(Start(a, b, pnis), b.members);
            var ds := PendingRemoves(Gone(l'.pending, b.pending));
            var gone := GoneInvites(a, b, pnis);
            && (PendingRemoveOne(id, inviter) in ds <==>
                  gone == {id} && Get(a.pending, id).value.addedBy == inviter)
            && (PendingRemoveMany(n, inviter) in ds <==> |gone| == n > 1 && SharedInviter(a.pending, gone, inviter))
  {
    hide Start, AfterMembers, Gone, Keys, Unique, UsesPni, TakenUp, Accepted;
    var l := Start(a, b, pnis);
    StartIsUnique(a, b, pnis);
    var l' := AfterMembers(l, b.members);
    AfterMembersSpec(l, b.members);
    AcceptedRest(a, b, pnis, Keys(l'.pending));
    GoneIds(l'.pending, b.pending);
    var gone := Gone(l'.pending, b.pending);
    assert Keys(gone) == GoneInvites(a, b, pnis);
    forall k | k in Keys(gone) ensures Get(gone, k) == Get(a.pending, k) {
      GoneGet(l'.pending, b.pending, k);
      AfterMembersInvites(l, b.members, k);
    }
    hide GoneInvites, Get;
    RemovesOf(a.pending, gone, id, n, inviter);
  }

  lemma RemovesOf(pending: Dict<ServiceId, PendingMember>, gone: Dict<ServiceId, PendingMember>,
                  id: ServiceId, n: nat, inviter: Option<Aci>)
    requires Unique(gone) && Keys(gone) <= Keys(pending)
    requires forall k :: k in Keys(gone) ==> Get(gone, k) == Get(pending, k)
    ensures PendingRemoveOne(id, inviter) in PendingRemoves(gone) <==>
              Keys(gone) == {id} && Get(pending, id).value.addedBy == inviter
    ensures PendingRemoveMany(n, inviter) in PendingRemoves(gone) <==>
              |Keys(gone)| == n > 1 && SharedInviter(pending, Keys(gone), inviter)
  {
    UniqueSize(gone);
    hide Unique;
    forall i | 0 <= i < |gone| ensures gone[i].key in Keys(gone) && Get(pending, gone[i].key) == Some(gone[i].value) {
      KeyAt(gone, i);
      GetAt(gone, i);
    }
    if |gone| == 1 {
      assert Keys(gone) == {gone[0].key} by { assert gone[1..] == []; }
    } else if |gone| > 1 {
      hide Get;
      SharedIs(pending, gone, inviter);
    }
  }

  lemma SharedIs(pending: Dict<ServiceId, PendingMember>, gone: Dict<ServiceId, PendingMember>, inviter: Option<Aci>)
    requires |gone| > 0 && Keys(gone) <= Keys(pending)
    requires forall i :: 0 <= i < |gone| ==>
               gone[i].key in Keys(gone) && Get(pending, gone[i].key) == Some(gone[i].value)
    ensures var first := gone[0].value.addedBy;
            var allSame := forall e :: e in gone ==> e.value.addedBy == first;
            SharedInviter(pending, Keys(gone), inviter) <==> inviter == if allSame then first else None
  {
    var first := gone[0].value.addedBy;
    forall k | k in Keys(gone) ensures exists i :: 0 <= i < |gone| && gone[i].key == k {
      var i := FindKey(gone, k);
    }
    hide Keys, Get;
    if forall e :: e in gone ==> e.value.addedBy == first {
      forall k | k in Keys(gone) ensures Get(pending, k).value.addedBy == first {
        var i :| 0 <= i < |gone| && gone[i].key == k;
        assert gone[i] in gone;
      }
    } else {
      var e :| e in gone && e.value.addedBy != first;
      var i :| 0 <= i < |gone| && gone[i] == e;
      assert gone[0].key in Keys(gone) && gone[i].key in Keys(gone);
    }
  }

  // ----- how a new member is told to have joined -----

  /** Some member that comes before `aci` in the list used up the invitation of `pni`. */
  ghost predicate UsedUp(l: Lookups, ms: Dict<Aci, Member>, aci: Aci, pni: Pni) {
    exists i, j :: 0 <= j < i < |ms| && ms[i].key == aci && UsesFor(l, ms[j].key, pni)
  }

  /** By the invitation of the ACI, else by that of its PNI unless another used it up, and else as the
      record says. */
  ghost function JoinOf(l: Lookups, ms: Dict<Aci, Member>, aci: Aci): Detail
    requires Has(ms, aci)
  {
    var pni, m := Get(l.pnis, aci), Get(ms, aci).value;
    if Has(l.pending, OfAci(aci)) then MemberAddFromInvite(aci, Get(l.pending, OfAci(aci)).value.addedBy)
    else if pni.Some? && Has(l.pending, OfPni(pni.value)) && !UsedUp(l, ms, aci, pni.value)
    then MemberAddFromInvite(aci, Get(l.pending, OfPni(pni.value)).value.addedBy)
    else if m.joinedFromLink then MemberAddFromLink(aci)
    else if m.approvedByAdmin then MemberAddFromAdminApproval(aci)
    else MemberAdd(aci)
  }

  lemma FirstUsesOwn(l: Lookups, ms: Dict<Aci, Member>, pni: Pni)
    requires ms != [] && Unique(ms)
    ensures !UsedUp(l, ms, ms[0].key, pni)
  {
    forall i | 0 < i < |ms| ensures ms[i].key != ms[0].key {
      UniqueByIndex(ms, 0, i);
    }
  }

  /** Who of the rest uses up an invitation of a PNI once the first member is accounted for. */
  lemma UsesLater(l: Lookups, ms: Dict<Aci, Member>, j: nat, pni: Pni)
    requires Unique(ms) && 0 < j < |ms|
    ensures var first := ms[0].key; var l1 := AccountFor(l, first);
            UsesFor(l1, ms[j].key, pni) <==> UsesFor(l, ms[j].key, pni) && !UsesFor(l, first, pni)
  {
    UniqueByIndex(ms, 0, j);
    UsesPniLater(l, ms[0].key, ms[j].key);
    assert AccountFor(l, ms[0].key).pnis == l.pnis;
    hide UsesPni, Get, AccountFor, Unique;
  }

  predicate UsesFor(l: Lookups, aci: Aci, pni: Pni) {
    UsesPni(l, aci) && Get(l.pnis, aci) == Some(pni)
  }

  lemma FirstTakes(l: Lookups, first: Aci, aci: Aci, pni: Pni)
    requires aci != first
    ensures var l1 := AccountFor(l, first);
            && Get(l1.pending, OfAci(aci)) == Get(l.pending, OfAci(aci)) && l1.pnis == l.pnis
            && (Has(l1.pending, OfPni(pni)) <==> Has(l.pending, OfPni(pni)) && !UsesFor(l, first, pni))
  {
    AccountForInvites(l, first, OfAci(aci));
    AccountForSpec(l, first);
    hide UsesPni, Get, AccountFor, Keys;
  }

  lemma UsedUpLater(l: Lookups, ms: Dict<Aci, Member>, aci: Aci, pni: Pni)
    requires ms != [] && Unique(ms) && aci in Keys(ms[1..])
    ensures var first := ms[0].key; var l1 := AccountFor(l, first);
            && first != aci
            && Get(l1.pending, OfAci(aci)) == Get(l.pending, OfAci(aci)) && l1.pnis == l.pnis
            && (Has(l1.pending, OfPni(pni)) && !UsedUp(l1, ms[1..], aci, pni) <==>
                  Has(l.pending, OfPni(pni)) && !UsedUp(l, ms, aci, pni))
  {
    var first, rest := ms[0].key, ms[1..];
    var l1 := AccountFor(l, first);
    FirstTakes(l, first, aci, pni);
    forall j | 0 < j < |ms|
      ensures ms[j] == rest[j - 1]
      ensures UsesFor(l1, ms[j].key, pni) <==> UsesFor(l, ms[j].key, pni) && !UsesFor(l, first, pni)
    {
      UsesLater(l, ms, j, pni);
    }
    var k := FindKey(rest, aci);
    hide UsesFor, Get, AccountFor, Keys, Unique;
    if UsesFor(l, first, pni) {
      assert ms[k + 1].key == aci && UsesFor(l, ms[0].key, pni);
    } else {
      if UsedUp(l1, rest, aci, pni) {
        var i, j :| 0 <= j < i < |rest| && rest[i].key == aci && UsesFor(l1, rest[j].key, pni);
        assert ms[i + 1].key == aci && UsesFor(l, ms[j + 1].key, pni);
      }
      if UsedUp(l, ms, aci, pni) {
        var i, j :| 0 <= j < i < |ms| && ms[i].key == aci && UsesFor(l, ms[j].key, pni);
        assert rest[i - 1].key == aci && UsesFor(l1, rest[j - 1].key, pni);
      }
    }
  }

  lemma JoinOfLater(l: Lookups, ms: Dict<Aci, Member>, aci: Aci)
    requires ms != [] && Unique(ms) && aci in Keys(ms[1..])
    ensures Has(ms, aci) && JoinOf(l, ms, aci) == JoinOf(AccountFor(l, ms[0].key), ms[1..], aci)
  {
    var pni := if Get(l.pnis, aci).Some? then Get(l.pnis, aci).value else 0;
    UsedUpLater(l, ms, aci, pni);
    AccountForInvites(l, ms[0].key, OfPni(pni));
    hide UsedUp, AccountFor, Unique;
  }

  lemma FirstJoin(l: Lookups, ms: Dict<Aci, Member>, d: Detail)
    requires ms != [] && Unique(ms) && KindOf(d) == Joins
    ensures d in MemberDetail(l, ms[0].key, ms[0].value) <==>
              ms[0].key !in Keys(l.members) && d == JoinOf(l, ms, ms[0].key)
  {
    var aci := ms[0].key;
    if Get(l.pnis, aci).Some? {
      FirstUsesOwn(l, ms, Get(l.pnis, aci).value);
    }
    hide UsedUp, Unique;
  }

  /** Each new member is told to have joined exactly in the way that it did. */
  lemma {:induction false} JoinsTold(l: Lookups, ms: Dict<Aci, Member>, d: Detail)
    requires Unique(ms) && KindOf(d) == Joins
    ensures d in MemberDetails(l, ms) <==> d.aci in Keys(ms) - Keys(l.members) && d == JoinOf(l, ms, d.aci)
    decreases |ms|
  {
    if ms != [] {
      var first, rest := ms[0].key, ms[1..];
      var l1 := AccountFor(l, first);
      assert Keys(ms) == {first} + Keys(rest) && first !in Keys(rest) && Unique(rest);
      assert MemberDetails(l, ms) == MemberDetail(l, first, ms[0].value) + MemberDetails(l1, rest);
      hide MemberDetail, MemberDetails, AccountFor, UsedUp, JoinOf, Get, Has, KindOf, Keys, Unique;
      JoinsTold(l1, rest, d);
      FirstJoin(l, ms, d);
      FirstIsOut(l, first);
      if d.aci in Keys(rest) {
        JoinOfLater(l, ms, d.aci);
      }
    }
  }

  lemma FirstIsOut(l: Lookups, first: Aci)
    ensures Keys(AccountFor(l, first).members) == Keys(l.members) - {first}
  {
    hide AccountFor;
    AccountForSpec(l, first);
  }

  // ----- all details -----

  /** The invitation of the PNI is gone, and a member before `aci` in the list goes with the PNI too. */
  ghost predicate UsedByEarlier(a: Group, b: Group, pnis: Dict<Aci, Pni>, aci: Aci, pni: Pni) {
    && OfPni(pni) !in Keys(b.pending)
    && exists i, j :: 0 <= j < i < |b.members| && b.members[i].key == aci && NewByPni(a, pnis, b.members[j].key, pni)
  }

  /** How a new member joined: by the invitation of its ACI; else by that of its PNI, if no earlier
      member of the list used it up; and else as its record says. */
  ghost function HowJoined(a: Group, b: Group, pnis: Dict<Aci, Pni>, aci: Aci): Detail
    requires aci in Keys(b.members)
  {
    var own, pni, m := Get(a.pending, OfAci(aci)), Get(pnis, aci), Get(b.members, aci).value;
    if own.Some? then MemberAddFromInvite(aci, own.value.addedBy)
    else if pni.Some? && OfPni(pni.value) in Keys(a.pending) && !UsedByEarlier(a, b, pnis, aci, pni.value)
    then MemberAddFromInvite(aci, Get(a.pending, OfPni(pni.value)).value.addedBy)
    else if m.joinedFromLink then MemberAddFromLink(aci)
    else if m.approvedByAdmin then MemberAddFromAdminApproval(aci)
    else MemberAdd(aci)
  }

  lemma HowJoinedIs(a: Group, b: Group, pnis: Dict<Aci, Pni>, aci: Aci)
    requires UniqueLists(a) && aci in Keys(b.members)
    ensures JoinOf(Start(a, b, pnis), b.members, aci) == HowJoined(a, b, pnis, aci)
  {
    var l := Start(a, b, pnis);
    StartIsUnique(a, b, pnis);
    hide Keys, Unique, FromPairs, Start;
    if Get(pnis, aci).Some? && OfPni(Get(pnis, aci).value) in Keys(a.pending) {
      var pni := Get(pnis, aci).value;
      if UsedByEarlier(a, b, pnis, aci, pni) {
        var i, j :| 0 <= j < i < |b.members| && b.members[i].key == aci && NewByPni(a, pnis, b.members[j].key, pni);
        assert UsesFor(l, b.members[j].key, pni);
      }
    }
  }

  /** What a detail says of the old and the current state, for each kind of detail. */
  ghost predicate Told(a: Group, b: Group, pnis: Dict<Aci, Pni>, d: Detail) {
    match d
    case MemberPrivilege(aci, role) =>
      aci in Keys(a.members) * Keys(b.members)
      && Get(a.members, aci).value.role != role && Get(b.members, aci).value.role == role
    case MemberRemove(aci) => aci in Keys(a.members) - Keys(b.members)
    case PendingAddOne(id) => NewInvites(a, b, pnis) == {id}
    case PendingAddMany(n) => |NewInvites(a, b, pnis)| == n > 1
    case PendingRemoveOne(id, inviter) =>
      GoneInvites(a, b, pnis) == {id} && id in Keys(a.pending) && Get(a.pending, id).value.addedBy == inviter
    case PendingRemoveMany(n, inviter) =>
      UntakenIsOld(a, b, pnis);
      |GoneInvites(a, b, pnis)| == n > 1 && SharedInviter(a.pending, GoneInvites(a, b, pnis), inviter)
    case ApprovalAddOne(aci) => aci in Keys(b.approvals) - (Keys(a.approvals) - Keys(b.members))
    case ApprovalRemoveOne(aci) => aci in Keys(a.approvals) - Keys(b.members) - Keys(b.approvals)
    case MemberAddFromInvite(aci, _) =>
      aci in Keys(b.members) - Keys(a.members) && d == HowJoined(a, b, pnis, aci)
    case MemberAddFromLink(aci) =>
      aci in Keys(b.members) - Keys(a.members) && d == HowJoined(a, b, pnis, aci)
    case MemberAddFromAdminApproval(aci) =>
      aci in Keys(b.members) - Keys(a.members) && d == HowJoined(a, b, pnis, aci)
    case MemberAdd(aci) =>
      aci in Keys(b.members) - Keys(a.members) && d == HowJoined(a, b, pnis, aci)
    case _ => AttributeTold(a, b, d)
  }

  lemma RolesPartTold(a: Group, b: Group, pnis: Dict<Aci, Pni>, aci: Aci, role: nat)
    requires UniqueLists(a) && UniqueLists(b)
    ensures MemberPrivilege(aci, role) in MemberDetails(Start(a, b, pnis), b.members) <==>
              Told(a, b, pnis, MemberPrivilege(aci, role))
  {
    hide Start, MemberDetails, Keys, Get, Unique;
    StartIsUnique(a, b, pnis);
    MembersTold(Start(a, b, pnis), b.members, aci, role);
  }

  lemma JoinsPartTold(a: Group, b: Group, pnis: Dict<Aci, Pni>, d: Detail)
    requires UniqueLists(a) && UniqueLists(b) && KindOf(d) == Joins
    ensures d in MemberDetails(Start(a, b, pnis), b.members) <==> Told(a, b, pnis, d)
  {
    hide Start, MemberDetails, Keys, Get, Unique, JoinOf, HowJoined, SharedInviter, GoneInvites, NewInvites;
    StartIsUnique(a, b, pnis);
    JoinsTold(Start(a, b, pnis), b.members, d);
    if d.aci in Keys(b.members) {
      HowJoinedIs(a, b, pnis, d.aci);
    }
  }

  lemma LeavesPartTold(a: Group, b: Group, pnis: Dict<Aci, Pni>, aci: Aci)
    requires UniqueLists(a) && UniqueLists(b)
    ensures MemberRemove(aci) in MemberRemoves(AfterMembers(Start(a, b, pnis), b.members).members) <==>
              Told(a, b, pnis, MemberRemove(aci))
  {
    hide Start, AfterMembers, Keys, Unique, MemberRemoves, TakenUp;
    StartIsUnique(a, b, pnis);
    AfterMembersSpec(Start(a, b, pnis), b.members);
    MemberRemovesTold(AfterMembers(Start(a, b, pnis), b.members).members, aci);
  }

  lemma InvitesPartTold(a: Group, b: Group, pnis: Dict<Aci, Pni>, d: Detail)
    requires UniqueLists(a) && UniqueLists(b) && (KindOf(d) == Invites || KindOf(d) == Withdrawals)
    ensures var l' := AfterMembers(Start(a, b, pnis), b.members);
            && (KindOf(d) == Invites ==> (d in PendingAdds(NewIds(l'.pending, b.pending)) <==> Told(a, b, pnis, d)))
            && (KindOf(d) == Withdrawals ==>
                  (d in PendingRemoves(Gone(l'.pending, b.pending)) <==> Told(a, b, pnis, d)))
  {
    hide Start, AfterMembers, NewIds, Gone, PendingAdds, PendingRemoves, Keys, Get, Unique, NewInvites, GoneInvites;
    hide SharedInviter;
    match d
    case PendingAddOne(id) => InvitesTold(a, b, pnis, id, 0);
    case PendingAddMany(n) => InvitesTold(a, b, pnis, OfAci(0), n);
    case PendingRemoveOne(id, inviter) => WithdrawalsTold(a, b, pnis, id, 0, inviter);
    case PendingRemoveMany(n, inviter) => WithdrawalsTold(a, b, pnis, OfAci(0), n, inviter);
  }

  lemma RequestsPartTold(a: Group, b: Group, pnis: Dict<Aci, Pni>, aci: Aci)
    requires UniqueLists(a) && UniqueLists(b)
    ensures var l' := AfterMembers(Start(a, b, pnis), b.members);
            && (ApprovalAddOne(aci) in ApprovalAdds(NewIds(l'.approvals, b.approvals)) <==>
                  aci in Keys(b.approvals) - (Keys(a.approvals) - Keys(b.members)))
            && (ApprovalRemoveOne(aci) in ApprovalRemoves(Gone(l'.approvals, b.approvals)) <==>
                  aci in Keys(a.approvals) - Keys(b.members) - Keys(b.approvals))
  {
    hide Start, AfterMembers, Keys, Unique, NewIds, Gone, ApprovalAdds, ApprovalRemoves, TakenUp;
    StartIsUnique(a, b, pnis);
    AfterMembersSpec(Start(a, b, pnis), b.members);
    var l' := AfterMembers(Start(a, b, pnis), b.members);
    AddedIds(l'.approvals, b.approvals);
    GoneIds(l'.approvals, b.approvals);
    RequestsTold(NewIds(l'.approvals, b.approvals), Gone(l'.approvals, b.approvals), aci);
  }

  predicate OfKind(ds: seq<Detail>, k: Kind) {
    forall d :: d in ds ==> KindOf(d) == k
  }

  lemma PartKinds(ms: Dict<Aci, Member>, ids: seq<ServiceId>, ps: Dict<ServiceId, PendingMember>, acis: seq<Aci>,
                  rs: Dict<Aci, nat>)
    ensures OfKind(MemberRemoves(ms), Leaves) && OfKind(PendingAdds(ids), Invites)
    ensures OfKind(PendingRemoves(ps), Withdrawals)
    ensures OfKind(ApprovalAdds(acis), Requests) && OfKind(ApprovalRemoves(rs), Dismissals)
  {
  }

  lemma InOnePart(d: Detail, attributes: seq<Detail>, members: seq<Detail>, leaves: seq<Detail>, invites: seq<Detail>,
                  withdrawals: seq<Detail>, requests: seq<Detail>, dismissals: seq<Detail>, announcement: seq<Detail>)
    requires OfKind(attributes + announcement, Other)
    requires forall e :: e in members ==> KindOf(e) == Joins || KindOf(e) == Other
    requires OfKind(leaves, Leaves) && OfKind(invites, Invites) && OfKind(withdrawals, Withdrawals)
    requires OfKind(requests, Requests) && OfKind(dismissals, Dismissals)
    ensures d in attributes + (members + leaves + invites + withdrawals + requests + dismissals) + announcement <==>
              match KindOf(d)
              case Joins => d in members
              case Leaves => d in leaves
              case Invites => d in invites
              case Withdrawals => d in withdrawals
              case Requests => d in requests
              case Dismissals => d in dismissals
              case Other => d in members || d in attributes + announcement
  {
    hide KindOf;
  }

  lemma AttributesKind(a: Group, b: Group)
    ensures OfKind(AccessDetails(a, b) + LinkDetails(a, b) + TextDetails(a, b)
                   + One(a.announcementsOnly != b.announcementsOnly, AnnouncementsOnly(b.announcementsOnly)), Other)
  {
    hide AccessDetails, LinkDetails, TextDetails, One;
    forall d | AttributeTold(a, b, d) ensures KindOf(d) == Other {
    }
    hide AttributeTold;
    forall d ensures d in AccessDetails(a, b) + LinkDetails(a, b) + TextDetails(a, b)
                          + One(a.announcementsOnly != b.announcementsOnly, AnnouncementsOnly(b.announcementsOnly))
                     <==> AttributeTold(a, b, d) {
      AttributesTold(a, b, d);
    }
  }

  lemma MembersKind(l: Lookups, ms: Dict<Aci, Member>)
    ensures forall d :: d in MemberDetails(l, ms) ==> KindOf(d) == Joins || KindOf(d) == Other
  {
    hide MemberDetails;
    forall d | d in MemberDetails(l, ms) ensures KindOf(d) == Joins || KindOf(d) == Other {
      MemberDetailKinds(l, ms, d);
    }
  }

  /** A detail can only be in the part for its kind. */
  lemma InItsPart(a: Group, b: Group, pnis: Dict<Aci, Pni>, d: Detail)
    ensures var l := Start(a, b, pnis);
            var l' := AfterMembers(l, b.members);
            d in Details(a, b, pnis) <==>
              match KindOf(d)
              case Joins => d in MemberDetails(l, b.members)
              case Leaves => d in MemberRemoves(l'.members)
              case Invites => d in PendingAdds(NewIds(l'.pending, b.pending))
              case Withdrawals => d in PendingRemoves(Gone(l'.pending, b.pending))
              case Requests => d in ApprovalAdds(NewIds(l'.approvals, b.approvals))
              case Dismissals => d in ApprovalRemoves(Gone(l'.approvals, b.approvals))
              case Other => d in MemberDetails(l, b.members) || AttributeTold(a, b, d)
  {
    var l := Start(a, b, pnis);
    var l' := AfterMembers(l, b.members);
    var attributes := AccessDetails(a, b) + LinkDetails(a, b) + TextDetails(a, b);
    var announcement := One(a.announcementsOnly != b.announcementsOnly, AnnouncementsOnly(b.announcementsOnly));
    hide AccessDetails, LinkDetails, TextDetails, One, Start, AfterMembers, MemberRemoves, PendingAdds, PendingRemoves;
    hide ApprovalAdds, ApprovalRemoves, NewIds, Gone, AttributeTold, KindOf, MemberDetails, OfKind;
    AttributesKind(a, b);
    AttributesTold(a, b, d);
    MembersKind(l, b.members);
    PartKinds(l'.members, NewIds(l'.pending, b.pending), Gone(l'.pending, b.pending),
              NewIds(l'.approvals, b.approvals), Gone(l'.approvals, b.approvals));
    InOnePart(d, attributes, MemberDetails(l, b.members), MemberRemoves(l'.members),
              PendingAdds(NewIds(l'.pending, b.pending)), PendingRemoves(Gone(l'.pending, b.pending)),
              ApprovalAdds(NewIds(l'.approvals, b.approvals)), ApprovalRemoves(Gone(l'.approvals, b.approvals)),
              announcement);
  }

  /** Everything that is told is true, and everything that is true is told: between two states with
      unique lists, each detail of any kind is there exactly when it says of them what is the case. */
  lemma DetailsTold(a: Group, b: Group, pnis: Dict<Aci, Pni>, d: Detail)
    requires UniqueLists(a) && UniqueLists(b)
    ensures d in Details(a, b, pnis) <==> Told(a, b, pnis, d)
  {
    InItsPart(a, b, pnis, d);
    if KindOf(d) == Joins {
      hide *;
      JoinsPartTold(a, b, pnis, d);
    } else if KindOf(d) == Invites || KindOf(d) == Withdrawals {
      InvitesPartTold(a, b, pnis, d);
      hide Details, Told, Start, AfterMembers;
    } else if d.MemberRemove? {
      LeavesPartTold(a, b, pnis, d.aci);
      hide Details, Told, Start, AfterMembers;
    } else if d.ApprovalAddOne? || d.ApprovalRemoveOne? {
      RequestsPartTold(a, b, pnis, d.aci);
      hide Details, Start, AfterMembers, Accepted, SharedInviter, HowJoined, GoneInvites, NewInvites, Keys;
    } else {
      OthersTold(a, b, pnis, d);
      hide Details, Told, Start, AfterMembers;
    }
  }

  lemma OthersTold(a: Group, b: Group, pnis: Dict<Aci, Pni>, d: Detail)
    requires UniqueLists(a) && UniqueLists(b) && KindOf(d) == Other
    ensures d in MemberDetails(Start(a, b, pnis), b.members) || AttributeTold(a, b, d) <==> Told(a, b, pnis, d)
  {
    hide Start, MemberDetails, Keys, Get, Unique;
    if d.MemberPrivilege? {
      RolesPartTold(a, b, pnis, d.aci, d.role);
    } else if d in MemberDetails(Start(a, b, pnis), b.members) {
      MemberDetailKinds(Start(a, b, pnis), b.members, d);
    }
  }

  // ----- each thing once -----

  predicate Once<T(==)>(s: seq<T>) {
    forall i, j :: 0 <= i < j < |s| ==> s[i] != s[j]
  }

  lemma OnceAppend<T>(s: seq<T>, t: seq<T>)
    requires Once(s) && Once(t) && forall x :: x in s ==> x !in t
    ensures Once(s + t)
  {
    forall i, j | 0 <= i < j < |s + t| ensures (s + t)[i] != (s + t)[j] {
      if i < |s| <= j {
        assert s[i] in s && t[j - |s|] in t;
      }
    }
  }

  lemma OnceSplit<T>(s: seq<T>, t: seq<T>)
    requires Once(s + t)
    ensures Once(s) && Once(t) && forall x :: x in s ==> x !in t
  {
    assert s == (s + t)[..|s|] && t == (s + t)[|s|..];
    forall i, j | 0 <= i < |s| && 0 <= j < |t| ensures s[i] != t[j] {
      assert (s + t)[i] != (s + t)[|s| + j];
    }
  }

  /** The order of the attributes. */
  function Place(d: Detail): nat {
    if d.AccessAttributes? || d.AccessMembers? then 0
    else if d.GroupLinkAdd? || d.GroupLinkRemove? || d.AccessInviteLink? then 1
    else if d.AnnouncementsOnly? then 3
    else 2
  }

  predicate InPlace(ds: seq<Detail>, n: nat) {
    forall d :: d in ds ==> Place(d) == n
  }

  lemma AttributesInPlace(a: Group, b: Group)
    ensures InPlace(AccessDetails(a, b), 0) && InPlace(LinkDetails(a, b), 1) && InPlace(TextDetails(a, b), 2)
    ensures InPlace(One(a.announcementsOnly != b.announcementsOnly, AnnouncementsOnly(b.announcementsOnly)), 3)
  {
    hide AccessDetails, LinkDetails, TextDetails, AttributeTold;
    forall d: Detail ensures d in AccessDetails(a, b) ==> Place(d) == 0 {
      AccessTold(a, b, d);
    }
    forall d: Detail ensures d in LinkDetails(a, b) ==> Place(d) == 1 {
      LinkTold(a, b, d);
    }
    forall d: Detail ensures d in TextDetails(a, b) ==> Place(d) == 2 {
      TextTold(a, b, d);
    }
  }

  lemma FourOnce(s: seq<Detail>, t: seq<Detail>, u: seq<Detail>, v: seq<Detail>)
    requires Once(s) && Once(t) && Once(u) && Once(v)
    requires InPlace(s, 0) && InPlace(t, 1) && InPlace(u, 2) && InPlace(v, 3)
    ensures Once(s + t + u + v)
  {
    hide Once, Place;
    OnceAppend(s, t);
    OnceAppend(s + t, u);
    OnceAppend(s + t + u, v);
  }

  lemma AttributesOnce(a: Group, b: Group)
    ensures Once(AccessDetails(a, b) + LinkDetails(a, b) + TextDetails(a, b)
                 + One(a.announcementsOnly != b.announcementsOnly, AnnouncementsOnly(b.announcementsOnly)))
  {
    AccessOnce(a, b);
    TextOnce(a, b);
    AttributesInPlace(a, b);
    hide AccessDetails, LinkDetails, TextDetails, InPlace;
    FourOnce(AccessDetails(a, b), LinkDetails(a, b), TextDetails(a, b),
             One(a.announcementsOnly != b.announcementsOnly, AnnouncementsOnly(b.announcementsOnly)));
  }

  lemma AccessOnce(a: Group, b: Group)
    ensures Once(AccessDetails(a, b)) && Once(LinkDetails(a, b))
  {
  }

  lemma TextOnce(a: Group, b: Group)
    ensures Once(TextDetails(a, b))
  {
  }

  lemma {:induction false} MemberAcis(l: Lookups, ms: Dict<Aci, Member>, d: Detail)
    requires d in MemberDetails(l, ms)
    ensures (d.MemberPrivilege? || KindOf(d) == Joins) && d.aci in Keys(ms)
    decreases |ms|
  {
    hide Invitation, AccountFor;
    if d !in MemberDetail(l, ms[0].key, ms[0].value) {
      MemberAcis(AccountFor(l, ms[0].key), ms[1..], d);
    }
  }

  lemma {:induction false} MembersOnce(l: Lookups, ms: Dict<Aci, Member>)
    requires Unique(ms)
    ensures Once(MemberDetails(l, ms))
    decreases |ms|
  {
    hide Invitation, AccountFor;
    if ms != [] {
      var rest := MemberDetails(AccountFor(l, ms[0].key), ms[1..]);
      MembersOnce(AccountFor(l, ms[0].key), ms[1..]);
      forall d | d in MemberDetail(l, ms[0].key, ms[0].value) ensures d !in rest {
        if d in rest {
          MemberAcis(AccountFor(l, ms[0].key), ms[1..], d);
        }
      }
      OnceAppend(MemberDetail(l, ms[0].key, ms[0].value), rest);
    }
  }

  lemma {:induction false} NewIdsOnce<K, V, W>(lookup: Dict<K, V>, now: Dict<K, W>)
    requires Unique(now)
    ensures Once(NewIds(lookup, now))
    decreases |now|
  {
    if now != [] {
      var rest := Remove(lookup, now[0].key);
      NewIdsOnce(rest, now[1..]);
      AddedIds(rest, now[1..]);
      OnceAppend(if Has(lookup, now[0].key) then [] else [now[0].key], NewIds(rest, now[1..]));
    }
  }

  lemma ListPartsOnce(ms: Dict<Aci, Member>, ids: seq<ServiceId>, ps: Dict<ServiceId, PendingMember>, acis: seq<Aci>,
                      rs: Dict<Aci, nat>)
    requires Unique(ms) && Unique(rs) && Once(acis)
    ensures Once(MemberRemoves(ms)) && Once(PendingAdds(ids)) && Once(PendingRemoves(ps))
    ensures Once(ApprovalAdds(acis)) && Once(ApprovalRemoves(rs))
  {
    forall i, j | 0 <= i < j < |ms| ensures ms[i].key != ms[j].key {
      UniqueByIndex(ms, i, j);
    }
    forall i, j | 0 <= i < j < |rs| ensures rs[i].key != rs[j].key {
      UniqueByIndex(rs, i, j);
    }
  }

  lemma PartsOnce(attributes: seq<Detail>, members: seq<Detail>, leaves: seq<Detail>, invites: seq<Detail>,
                  withdrawals: seq<Detail>, requests: seq<Detail>, dismissals: seq<Detail>, announcement: seq<Detail>)
    requires OfKind(attributes + announcement, Other) && Once(attributes + announcement)
    requires forall d :: d in members ==> d.MemberPrivilege? || KindOf(d) == Joins
    requires forall d :: d in attributes + announcement ==> !d.MemberPrivilege?
    requires OfKind(leaves, Leaves) && OfKind(invites, Invites) && OfKind(withdrawals, Withdrawals)
    requires OfKind(requests, Requests) && OfKind(dismissals, Dismissals)
    requires Once(members) && Once(leaves) && Once(invites) && Once(withdrawals) && Once(requests) && Once(dismissals)
    ensures Once(attributes + (members + leaves + invites + withdrawals + requests + dismissals) + announcement)
  {
    OnceSplit(attributes, announcement);
    hide Once;
    OnceAppend(members, leaves);
    OnceAppend(members + leaves, invites);
    OnceAppend(members + leaves + invites, withdrawals);
    OnceAppend(members + leaves + invites + withdrawals, requests);
    OnceAppend(members + leaves + invites + withdrawals + requests, dismissals);
    var lists := members + leaves + invites + withdrawals + requests + dismissals;
    OnceAppend(attributes, lists);
    OnceAppend(attributes + lists, announcement);
  }

  /** No detail is told twice. */
  lemma DetailsOnce(a: Group, b: Group, pnis: Dict<Aci, Pni>)
    requires UniqueLists(a) && UniqueLists(b)
    ensures Once(Details(a, b, pnis))
  {
    var l := Start(a, b, pnis);
    var l' := AfterMembers(l, b.members);
    hide AccessDetails, LinkDetails, TextDetails, One, Start, AfterMembers, MemberRemoves, PendingAdds, PendingRemoves;
    hide ApprovalAdds, ApprovalRemoves, NewIds, Gone, AttributeTold, MemberDetails, OfKind, Once, Unique;
    var attributes := AccessDetails(a, b) + LinkDetails(a, b) + TextDetails(a, b);
    var announcement := One(a.announcementsOnly != b.announcementsOnly, AnnouncementsOnly(b.announcementsOnly));
    AttributesKind(a, b);
    AttributesOnce(a, b);
    forall d: Detail | d in attributes + announcement ensures !d.MemberPrivilege? {
      AttributesTold(a, b, d);
      assert AttributeTold(a, b, d);
      NoRoles(a, b, d);
    }
    MembersOnce(l, b.members);
    forall d: Detail | d in MemberDetails(l, b.members) ensures d.MemberPrivilege? || KindOf(d) == Joins {
      MemberAcis(l, b.members, d);
    }
    StartIsUnique(a, b, pnis);
    AfterMembersSpec(l, b.members);
    NewIdsOnce(l'.approvals, b.approvals);
    GoneIds(l'.approvals, b.approvals);
    PartKinds(l'.members, NewIds(l'.pending, b.pending), Gone(l'.pending, b.pending),
              NewIds(l'.approvals, b.approvals), Gone(l'.approvals, b.approvals));
    ListPartsOnce(l'.members, NewIds(l'.pending, b.pending), Gone(l'.pending, b.pending),
                  NewIds(l'.approvals, b.approvals), Gone(l'.approvals, b.approvals));
    hide KindOf;
    PartsOnce(attributes, MemberDetails(l, b.members), MemberRemoves(l'.members),
              PendingAdds(NewIds(l'.pending, b.pending)), PendingRemoves(Gone(l'.pending, b.pending)),
              ApprovalAdds(NewIds(l'.approvals, b.approvals)), ApprovalRemoves(Gone(l'.approvals, b.approvals)),
              announcement);
  }

  lemma NoRoles(a: Group, b: Group, d: Detail)
    requires AttributeTold(a, b, d)
    ensures !d.MemberPrivilege?
  {
  }

  // ----- who a message is from, and the timer -----

  function Seconds(g: Group): nat {
    match g.expireTimer
    case None => 0
    case Some(t) => t
  }

  /** A timer notice is made exactly when the timers differ, none and 0 being alike, and it holds the
      current one. */
  lemma TimerTold(a: Group, b: Group, us: Us, source: Option<ServiceId>, drop: bool, promoted: Dict<Aci, Pni>)
    ensures var r := DiffOf(a, b, us, source, drop, promoted);
            r.Some? ==> r.value.timer == if Seconds(a) == Seconds(b) then None else Some(Seconds(b))
  {
    hide KeepOurAdds, Details, From, WhoInvitedUs, InvitedAs, AllPnis;
  }

  /** The PNI that goes with an ACI: our own, else the one last promoted to it. */
  predicate GoesWith(us: Us, promoted: Dict<Aci, Pni>, aci: Aci, pni: Pni) {
    if aci == us.aci && us.pni.Some? then us.pni == Some(pni) else Get(promoted, aci) == Some(pni)
  }

  /** The author shown: the source, unless it is a PNI that goes with an ACI. */
  ghost predicate IsAuthor(us: Us, promoted: Dict<Aci, Pni>, source: Option<ServiceId>, from: Option<ServiceId>) {
    if source.Some? && source.value.OfPni? && exists aci :: GoesWith(us, promoted, aci, source.value.pni)
    then from.Some? && from.value.OfAci? && GoesWith(us, promoted, from.value.aci, source.value.pni)
    else from == source
  }

  lemma {:induction false} AciOfIs(pnis: Dict<Aci, Pni>, pni: Pni)
    requires Unique(pnis)
    ensures AciOf(pnis, pni).Some? ==> Get(pnis, AciOf(pnis, pni).value) == Some(pni)
    ensures AciOf(pnis, pni).None? ==> forall aci: Aci :: Get(pnis, aci) != Some(pni)
  {
    if pnis != [] {
      var n := |pnis| - 1;
      var init, last := pnis[..n], [pnis[n]];
      assert pnis == init + last && last[1..] == [] && Keys(last) == {pnis[n].key};
      UniqueAppend(init, last);
      PutNew(init, pnis[n].key, pnis[n].value);
      forall aci: Aci
        ensures Get(pnis, aci) == if aci == pnis[n].key then Some(pnis[n].value) else Get(init, aci)
      {
        PutGet(init, pnis[n].key, pnis[n].value, aci);
      }
      assert Get(init, pnis[n].key) == None;
      hide Get, Unique, Keys, Put;
      AciOfIs(init, pni);
    }
  }

  lemma AllPnisAre(us: Us, promoted: Dict<Aci, Pni>, aci: Aci, pni: Pni)
    requires Unique(promoted)
    ensures Unique(AllPnis(us, promoted))
    ensures Get(AllPnis(us, promoted), aci) == Some(pni) <==> GoesWith(us, promoted, aci, pni)
  {
    if us.pni.Some? {
      PutGet(promoted, us.aci, us.pni.value, aci);
      PutUnique(promoted, us.aci, us.pni.value);
    }
  }

  lemma AuthorIs(us: Us, promoted: Dict<Aci, Pni>, source: Option<ServiceId>)
    requires Unique(promoted)
    ensures IsAuthor(us, promoted, source, From(AllPnis(us, promoted), source))
  {
    hide Get, Unique, GoesWith, AllPnis;
    if source.Some? && source.value.OfPni? {
      var pni, pnis := source.value.pni, AllPnis(us, promoted);
      AllPnisAre(us, promoted, us.aci, pni);
      AciOfIs(pnis, pni);
      if AciOf(pnis, pni).Some? {
        AllPnisAre(us, promoted, AciOf(pnis, pni).value, pni);
      } else {
        forall aci: Aci ensures !GoesWith(us, promoted, aci, pni) {
          AllPnisAre(us, promoted, aci, pni);
        }
      }
    }
  }

  /** A message about a known group is from its author, and seen exactly when that is us. */
  lemma KnownGroupAuthor(a: Group, b: Group, us: Us, source: Option<ServiceId>, drop: bool, promoted: Dict<Aci, Pni>)
    requires a.revision.Some? && Unique(promoted)
    ensures var r := DiffOf(a, b, us, source, drop, promoted);
            r.Some? && r.value.note.Some? ==>
              && IsAuthor(us, promoted, source, r.value.note.value.from)
              && r.value.note.value.seen == Some(source == Some(OfAci(us.aci)))
  {
    hide KeepOurAdds, Details, From, AllPnis, IsAuthor, TimerNotice, JustJoined, Keys, Get, Unique, FirstNote;
    AuthorIs(us, promoted, source);
  }

  /** The last invitation on the list that is for us. */
  predicate LastForUs(us: Us, pending: Dict<ServiceId, PendingMember>, i: nat) {
    i < |pending| && IsUs(us, pending[i].key) && forall j :: i < j < |pending| ==> !IsUs(us, pending[j].key)
  }

  lemma {:induction false} WhoInvitedUsIs(us: Us, pending: Dict<ServiceId, PendingMember>, i: nat)
    requires LastForUs(us, pending, i)
    ensures WhoInvitedUs(us, pending) ==
              match pending[i].value.addedBy
              case None => None
              case Some(aci) => Some(OfAci(aci))
    decreases |pending|
  {
    hide IsUs;
    if i < |pending| - 1 {
      WhoInvitedUsIs(us, pending[..|pending| - 1], i);
    }
  }

  /** Our own addition, if it is told, is how we joined. */
  lemma OurJoinIs(a: Group, b: Group, us: Us, promoted: Dict<Aci, Pni>)
    requires UniqueLists(a) && UniqueLists(b) && us.aci in Keys(b.members)
    requires |KeepOurAdds(us, Details(a, b, AllPnis(us, promoted)))| == 1
    ensures KeepOurAdds(us, Details(a, b, AllPnis(us, promoted))) == [HowJoined(a, b, AllPnis(us, promoted), us.aci)]
  {
    hide KeepOurAdds, Details, Keys, Unique, AllPnis, HowJoined;
    var details := Details(a, b, AllPnis(us, promoted));
    var kept := KeepOurAdds(us, details);
    KeptIsOurs(us, details);
    assert kept[0] in kept;
    DetailsTold(a, b, AllPnis(us, promoted), kept[0]);
  }

  /** What a first message says when somebody invited us, when we asked to join, and otherwise. */
  ghost predicate InvitationNote(us: Us, pending: Dict<ServiceId, PendingMember>, from: Option<ServiceId>,
                           seen: Option<bool>, note: Option<Note>)
  {
    && note.Some? && note.value.seen == seen
    && note.value.details == [PendingAddOne(if OfAci(us.aci) in Keys(pending) then OfAci(us.aci)
                                            else if us.pni.Some? then OfPni(us.pni.value) else OfAci(us.aci))]
    && forall i: nat :: LastForUs(us, pending, i) ==>
         note.value.from == match pending[i].value.addedBy
                            case None => from
                            case Some(aci) => Some(OfAci(aci))
  }

  predicate InvitedNow(us: Us, pending: Dict<ServiceId, PendingMember>) {
    OfAci(us.aci) in Keys(pending) || (us.pni.Some? && OfPni(us.pni.value) in Keys(pending))
  }

  lemma InvitationNoteIs(b: Group, us: Us, source: Option<ServiceId>, from: Option<ServiceId>, drop: bool,
                         details: seq<Detail>)
    requires InvitedNow(us, b.pending)
    ensures var r := FirstNote(b, us, source, from, drop, details);
            r.Some? && InvitationNote(us, b.pending, from, Some(source == Some(OfAci(us.aci))), r.value)
  {
    hide KeepOurAdds, Keys, Get;
    forall i: nat | LastForUs(us, b.pending, i)
      ensures WhoInvitedUs(us, b.pending) == match b.pending[i].value.addedBy
                                             case None => None
                                             case Some(aci) => Some(OfAci(aci))
    {
      WhoInvitedUsIs(us, b.pending, i);
    }
    hide WhoInvitedUs;
  }

  /** Which thing a first message tells: an invitation, by our ACI if that is invited, from whoever is on
      the last invitation for us; else our request, from us; else nothing if a join was to be dropped;
      else that we created the group, how we joined it, that somebody created it, or all details. */
  lemma FirstMessageIs(a: Group, b: Group, us: Us, source: Option<ServiceId>, drop: bool, promoted: Dict<Aci, Pni>)
    requires a.revision.None? && UniqueLists(a) && UniqueLists(b) && Unique(promoted)
    ensures var r := DiffOf(a, b, us, source, drop, promoted);
            var pnis := AllPnis(us, promoted);
            var seen, from := Some(source == Some(OfAci(us.aci))), From(pnis, source);
            IsAuthor(us, promoted, source, from) &&
            (r.Some? ==>
              if InvitedNow(us, b.pending) then InvitationNote(us, b.pending, from, seen, r.value.note)
              else if us.aci in Keys(b.approvals) then
                r.value.note == Some(Note(Some(OfAci(us.aci)), [ApprovalAddOne(us.aci)], None))
              else if drop then r.value.note == None
              else if b.revision == Some(0) && source == Some(OfAci(us.aci)) then
                r.value.note == Some(Note(from, [Create], seen))
              else if us.aci in Keys(b.members) then
                r.value.note == Some(Note(from, [HowJoined(a, b, pnis, us.aci)], seen))
              else if b.revision == Some(0) then r.value.note == Some(Note(from, [Create], seen))
              else if Details(a, b, pnis) == [] then r.value.note == None
              else r.value.note == Some(Note(from, Details(a, b, pnis), seen)))
  {
    var pnis := AllPnis(us, promoted);
    var details := Details(a, b, pnis);
    hide KeepOurAdds, Details, From, WhoInvitedUs, Keys, Unique, AllPnis, TimerNotice, IsAuthor, HowJoined, Get;
    hide LaterNote, LastForUs;
    AuthorIs(us, promoted, source);
    if InvitedNow(us, b.pending) {
      hide InvitationNote, FirstNote, InvitedNow;
      InvitationNoteIs(b, us, source, From(pnis, source), drop, details);
    } else {
      hide InvitationNote;
      if us.aci in Keys(b.members) && |KeepOurAdds(us, details)| == 1 {
        OurJoinIs(a, b, us, promoted);
      }
    }
  }
}
