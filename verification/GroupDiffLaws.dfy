/** What the details of a group change account for: who joined and left, how many invitations there
    are, when nothing is told at all, and when no message can be made. */
module GroupDiffLaws {
  import opened Options
  import opened ServiceIds
  import opened Dicts
  import opened GroupDetails
  import opened GroupApply
  import opened GroupDiff

  // ----- comparing a lookup with a list -----

  /** What is gone from a list without repeats. */
  lemma {:induction false} GoneIds<K, V, W>(lookup: Dict<K, V>, now: Dict<K, W>)
    requires Unique(lookup)
    ensures Keys(Gone(lookup, now)) == Keys(lookup) - Keys(now) && Unique(Gone(lookup, now))
    decreases |now|
  {
    if now != [] {
      RemoveUnique(lookup, now[0].key);
      GoneIds(Remove(lookup, now[0].key), now[1..]);
    }
  }

  /** What is new in a list without repeats, each id once. */
  lemma {:induction false} AddedIds<K, V, W>(lookup: Dict<K, V>, now: Dict<K, W>)
    requires Unique(now)
    ensures forall k :: k in NewIds(lookup, now) <==> k in Keys(now) && k !in Keys(lookup)
    ensures |NewIds(lookup, now)| == |Keys(now) - Keys(lookup)|
    decreases |now|
  {
    if now != [] {
      var k, rest := now[0].key, Remove(lookup, now[0].key);
      AddedIds(rest, now[1..]);
      OneMore(Keys(lookup), k, Keys(now[1..]));
      hide Keys, Remove, Has;
    }
  }

  lemma OneMore<K>(known: set<K>, k: K, rest: set<K>)
    requires k !in rest
    ensures |({k} + rest) - known| == |rest - (known - {k})| + if k in known then 0 else 1
  {
    assert rest - (known - {k}) == rest - known;
    if k in known {
      assert ({k} + rest) - known == rest - known;
    } else {
      assert ({k} + rest) - known == {k} + (rest - known);
    }
  }

  /** The size of a set after some are gone and others are new. */
  lemma SizeAfter<T>(before: set<T>, after: set<T>)
    ensures |after| == |before| - |before - after| + |after - before|
  {
    var kept := before * after;
    assert before == kept + (before - after) && after == kept + (after - before);
  }

  /** The same when some of the old ones are taken out first. */
  lemma SizeAfterTaking<T>(before: set<T>, taken: set<T>, rest: set<T>, after: set<T>)
    requires taken <= before && rest == before - taken
    ensures |after| == |before| - |taken| - |rest - after| + |after - rest|
  {
    SizeAfter(rest, after);
    assert before == rest + taken;
  }

  // ----- accounting for the members -----

  /** The old invitation `id` was taken up by one of the present members: it names a member, or the
      PNI of a new member who was not invited by ACI, and it is not standing any more. */
  ghost predicate TakenUp(l: Lookups, present: set<Aci>, id: ServiceId) {
    match id
    case OfAci(aci) => aci in present
    case OfPni(pni) => exists aci :: aci in present && UsesPni(l, aci) && Get(l.pnis, aci) == Some(pni)
  }

  lemma UsesPniLater(l: Lookups, first: Aci, aci: Aci)
    requires aci != first
    ensures UsesPni(AccountFor(l, first), aci) <==>
              UsesPni(l, aci) && !(UsesPni(l, first) && Get(l.pnis, first) == Get(l.pnis, aci))
  {
  }

  lemma AccountForUnique(l: Lookups, aci: Aci)
    requires Unique(l.members) && Unique(l.pending) && Unique(l.approvals)
    ensures var l' := AccountFor(l, aci); Unique(l'.members) && Unique(l'.pending) && Unique(l'.approvals)
  {
    var pending := if UsesPni(l, aci) then Remove(l.pending, OfPni(Get(l.pnis, aci).value)) else l.pending;
    if UsesPni(l, aci) {
      RemoveUnique(l.pending, OfPni(Get(l.pnis, aci).value));
    }
    hide UsesPni, Get, Remove, Unique;
    RemoveUnique(pending, OfAci(aci));
    RemoveUnique(l.members, aci);
    RemoveUnique(l.approvals, aci);
  }

  lemma AccountForSpec(l: Lookups, aci: Aci)
    ensures var l' := AccountFor(l, aci);
            && Keys(l'.members) == Keys(l.members) - {aci} && Keys(l'.approvals) == Keys(l.approvals) - {aci}
            && l'.pnis == l.pnis
            && (forall id :: id in Keys(l'.pending) <==> id in Keys(l.pending) && !TakenUp(l, {aci}, id))
  {
    hide Get, Keys, Remove, UsesPni, Has;
    if UsesPni(l, aci) {
      UsesPniHasPni(l, aci);
    }
    forall id ensures id in Keys(AccountFor(l, aci).pending) <==> id in Keys(l.pending) && !TakenUp(l, {aci}, id) {
      assert TakenUp(l, {aci}, id) <==>
          (id == OfAci(aci) || (id.OfPni? && UsesPni(l, aci) && Get(l.pnis, aci) == Some(id.pni)));
    }
  }

  lemma UsesPniHasPni(l: Lookups, aci: Aci)
    requires UsesPni(l, aci)
    ensures Get(l.pnis, aci).Some?
  {
    hide Get;
  }

  /** The pass over the members leaves the members who are gone, the requests not answered by
      joining, and the invitations not taken up. */
  lemma {:induction false} AfterMembersSpec(l: Lookups, ms: Dict<Aci, Member>)
    requires Unique(ms) && Unique(l.members) && Unique(l.pending) && Unique(l.approvals)
    ensures var l' := AfterMembers(l, ms);
            && Keys(l'.members) == Keys(l.members) - Keys(ms) && Unique(l'.members)
            && Keys(l'.approvals) == Keys(l.approvals) - Keys(ms) && Unique(l'.approvals)
            && (forall id :: id in Keys(l'.pending) <==> id in Keys(l.pending) && !TakenUp(l, Keys(ms), id))
            && Unique(l'.pending)
    decreases |ms|
  {
    if ms != [] {
      var first, rest := ms[0].key, ms[1..];
      var l1 := AccountFor(l, first);
      AccountForSpec(l, first);
      AccountForUnique(l, first);
      AfterMembersSpec(l1, rest);
      forall id | id in Keys(l1.pending)
        ensures TakenUp(l1, Keys(rest), id) <==> TakenUp(l, Keys(ms), id)
      {
        TakenUpLater(l, first, Keys(rest), id);
        assert Keys(ms) == {first} + Keys(rest);
      }
      forall id | id in Keys(l.pending) && TakenUp(l, {first}, id) ensures TakenUp(l, Keys(ms), id) {
      }
    }
  }

  lemma TakenUpLater(l: Lookups, first: Aci, rest: set<Aci>, id: ServiceId)
    requires first !in rest && id in Keys(l.pending) && !TakenUp(l, {first}, id)
    ensures TakenUp(AccountFor(l, first), rest, id) <==> TakenUp(l, {first} + rest, id)
  {
    var l1 := AccountFor(l, first);
    forall aci | aci in rest ensures UsesPni(l1, aci) ==> UsesPni(l, aci) {
      UsesPniLater(l, first, aci);
    }
    if id.OfPni? && TakenUp(l, {first} + rest, id) {
      var aci :| aci in {first} + rest && UsesPni(l, aci) && Get(l.pnis, aci) == Some(id.pni);
      UsesPniLater(l, first, aci);
      assert UsesPni(l1, aci) && aci in rest;
    }
  }

  // ----- counting details -----

  datatype Kind = Joins | Leaves | Invites | Withdrawals | Requests | Dismissals | Other

  function KindOf(d: Detail): Kind {
    if d.MemberAddFromInvite? || d.MemberAddFromLink? || d.MemberAddFromAdminApproval? || d.MemberAdd? then Joins
    else if d.MemberRemove? then Leaves
    else if d.PendingAddOne? || d.PendingAddMany? then Invites
    else if d.PendingRemoveOne? || d.PendingRemoveMany? then Withdrawals
    else if d.ApprovalAddOne? then Requests
    else if d.ApprovalRemoveOne? then Dismissals
    else Other
  }

  function Weight(d: Detail): nat {
    if d.PendingAddMany? || d.PendingRemoveMany? then d.count else 1
  }

  /** How many people the details of a kind stand for. */
  function Count(ds: seq<Detail>, k: Kind): nat {
    if ds == [] then 0 else (if KindOf(ds[0]) == k then Weight(ds[0]) else 0) + Count(ds[1..], k)
  }

  lemma {:induction false} CountAppend(ds: seq<Detail>, es: seq<Detail>, k: Kind)
    ensures Count(ds + es, k) == Count(ds, k) + Count(es, k)
  {
    if ds == [] {
      assert ds + es == es;
    } else {
      assert (ds + es)[1..] == ds[1..] + es;
      CountAppend(ds[1..], es, k);
      hide KindOf, Weight;
    }
  }

  lemma {:induction false} CountAlike(ds: seq<Detail>, kind: Kind, k: Kind)
    requires forall d :: d in ds ==> KindOf(d) == kind && Weight(d) == 1
    ensures Count(ds, k) == if kind == k then |ds| else 0
  {
    if ds != [] {
      CountAlike(ds[1..], kind, k);
      hide KindOf, Weight;
    }
  }

  lemma CountMember(l: Lookups, aci: Aci, m: Member, k: Kind)
    requires k != Other
    ensures Count(MemberDetail(l, aci, m), k) == if k == Joins && aci !in Keys(l.members) then 1 else 0
  {
    CountOne(MemberDetail(l, aci, m), k);
    hide Invitation, Count;
  }

  lemma {:induction false} CountMembers(l: Lookups, ms: Dict<Aci, Member>, k: Kind)
    requires Unique(ms) && k != Other
    ensures Count(MemberDetails(l, ms), k) == if k == Joins then |Keys(ms) - Keys(l.members)| else 0
    decreases |ms|
  {
    hide KindOf, Weight, MemberDetail, AccountFor, Remove;
    if ms == [] {
      assert Keys(ms) - Keys(l.members) == {};
    } else {
      var first, rest := ms[0].key, ms[1..];
      var l1, d := AccountFor(l, first), MemberDetail(l, first, ms[0].value);
      AccountForSpec(l, first);
      CountMembers(l1, rest, k);
      CountMember(l, first, ms[0].value, k);
      CountAppend(d, MemberDetails(l1, rest), k);
      OneMore(Keys(l.members), first, Keys(rest));
    }
  }

  lemma CountPending(ids: seq<ServiceId>, gone: Dict<ServiceId, PendingMember>, k: Kind)
    ensures Count(PendingAdds(ids), k) == if k == Invites then |ids| else 0
    ensures Count(PendingRemoves(gone), k) == if k == Withdrawals then |gone| else 0
  {
    CountOne(PendingAdds(ids), k);
    CountOne(PendingRemoves(gone), k);
  }

  lemma CountOne(ds: seq<Detail>, k: Kind)
    requires |ds| <= 1
    ensures Count(ds, k) == if |ds| == 1 && KindOf(ds[0]) == k then Weight(ds[0]) else 0
  {
    if |ds| == 1 {
      assert ds[1..] == [];
      hide KindOf, Weight;
    }
  }

  lemma CountSingles(gone: Dict<Aci, Member>, ids: seq<Aci>, dismissed: Dict<Aci, nat>, k: Kind)
    ensures Count(MemberRemoves(gone), k) == if k == Leaves then |gone| else 0
    ensures Count(ApprovalAdds(ids), k) == if k == Requests then |ids| else 0
    ensures Count(ApprovalRemoves(dismissed), k) == if k == Dismissals then |dismissed| else 0
  {
    CountAlike(MemberRemoves(gone), Leaves, k);
    CountAlike(ApprovalAdds(ids), Requests, k);
    CountAlike(ApprovalRemoves(dismissed), Dismissals, k);
  }

  lemma CountLists(l: Lookups, b: Group, k: Kind)
    requires Unique(b.members) && k != Other
    ensures var l' := AfterMembers(l, b.members);
            Count(ListDetails(l, b), k) ==
              match k
              case Joins => |Keys(b.members) - Keys(l.members)|
              case Leaves => |l'.members|
              case Invites => |NewIds(l'.pending, b.pending)|
              case Withdrawals => |Gone(l'.pending, b.pending)|
              case Requests => |NewIds(l'.approvals, b.approvals)|
              case Dismissals => |Gone(l'.approvals, b.approvals)|
  {
    hide MemberDetails, AfterMembers, PendingAdds, PendingRemoves, Count, NewIds, Gone, KindOf, Weight;
    var l' := AfterMembers(l, b.members);
    var d1, d2 := MemberDetails(l, b.members), MemberRemoves(l'.members);
    var d3, d4 := PendingAdds(NewIds(l'.pending, b.pending)), PendingRemoves(Gone(l'.pending, b.pending));
    var d5, d6 := ApprovalAdds(NewIds(l'.approvals, b.approvals)), ApprovalRemoves(Gone(l'.approvals, b.approvals));
    CountMembers(l, b.members, k);
    CountPending(NewIds(l'.pending, b.pending), Gone(l'.pending, b.pending), k);
    CountSingles(l'.members, NewIds(l'.approvals, b.approvals), Gone(l'.approvals, b.approvals), k);
    hide MemberRemoves, ApprovalAdds, ApprovalRemoves;
    CountAppend(d1, d2, k);
    CountAppend(d1 + d2, d3, k);
    CountAppend(d1 + d2 + d3, d4, k);
    CountAppend(d1 + d2 + d3 + d4, d5, k);
    CountAppend(d1 + d2 + d3 + d4 + d5, d6, k);
  }

  lemma CountOthers(a: Group, b: Group, k: Kind)
    requires k != Other
    ensures Count(AccessDetails(a, b) + LinkDetails(a, b) + TextDetails(a, b), k) == 0
    ensures Count(One(a.announcementsOnly != b.announcementsOnly, AnnouncementsOnly(b.announcementsOnly)), k) == 0
  {
    hide Count;
    CountAlike(AccessDetails(a, b), Other, k);
    CountAlike(LinkDetails(a, b), Other, k);
    CountAlike(TextDetails(a, b), Other, k);
    CountAlike(One(a.announcementsOnly != b.announcementsOnly, AnnouncementsOnly(b.announcementsOnly)), Other, k);
    CountAppend(AccessDetails(a, b), LinkDetails(a, b), k);
    CountAppend(AccessDetails(a, b) + LinkDetails(a, b), TextDetails(a, b), k);
  }

  lemma CountDetails(a: Group, b: Group, pnis: Dict<Aci, Pni>, k: Kind)
    requires k != Other
    ensures Count(Details(a, b, pnis), k) == Count(ListDetails(Start(a, b, pnis), b), k)
  {
    hide AccessDetails, LinkDetails, TextDetails, ListDetails, Start, Count, One;
    var d1, d2 := AccessDetails(a, b) + LinkDetails(a, b) + TextDetails(a, b), ListDetails(Start(a, b, pnis), b);
    CountOthers(a, b, k);
    CountAppend(d1, d2, k);
    CountAppend(d1 + d2, One(a.announcementsOnly != b.announcementsOnly, AnnouncementsOnly(b.announcementsOnly)), k);
  }

  /** Old invitations taken up by present members. */
  ghost function Accepted(a: Group, b: Group, pnis: Dict<Aci, Pni>): set<ServiceId> {
    set id | id in Keys(a.pending) && TakenUp(Start(a, b, pnis), Keys(b.members), id)
  }

  lemma AcceptedRest(a: Group, b: Group, pnis: Dict<Aci, Pni>, rest: set<ServiceId>)
    requires forall id :: id in rest <==> id in Keys(a.pending) && !TakenUp(Start(a, b, pnis), Keys(b.members), id)
    ensures Accepted(a, b, pnis) <= Keys(a.pending) && rest == Keys(a.pending) - Accepted(a, b, pnis)
  {
    hide TakenUp, Keys, Start;
  }

  /** Conservation of members: the joins and leaves told add up to the difference in size. */
  lemma MembersConserved(a: Group, b: Group, pnis: Dict<Aci, Pni>)
    requires UniqueLists(a) && UniqueLists(b)
    ensures var ds := Details(a, b, pnis);
            |b.members| == |a.members| + Count(ds, Joins) - Count(ds, Leaves)
  {
    hide Start, AfterMembers, Details, ListDetails, Count, Keys, Unique;
    var l := Start(a, b, pnis);
    StartIsUnique(a, b, pnis);
    AfterMembersSpec(l, b.members);
    CountDetails(a, b, pnis, Joins);
    CountDetails(a, b, pnis, Leaves);
    CountLists(l, b, Joins);
    CountLists(l, b, Leaves);
    hide *;
    UniqueSize(AfterMembers(l, b.members).members);
    UniqueSize(a.members);
    UniqueSize(b.members);
    SizeAfter(Keys(a.members), Keys(b.members));
  }

  lemma StartIsUnique(a: Group, b: Group, pnis: Dict<Aci, Pni>)
    requires UniqueLists(a)
    ensures Start(a, b, pnis) == Lookups(a.members, a.pending, a.approvals, pnis, Keys(b.pending))
    ensures Unique(a.members) && Unique(a.pending) && Unique(a.approvals)
  {
    FromPairsSpec(a.members);
    FromPairsSpec(a.pending);
    FromPairsSpec(a.approvals);
  }

  /** Conservation of invitations: an old one is told as withdrawn, or taken up, or stands; a present
      one stands or is told as new. */
  lemma InvitationsConserved(a: Group, b: Group, pnis: Dict<Aci, Pni>)
    requires UniqueLists(a) && UniqueLists(b)
    ensures var ds := Details(a, b, pnis);
            |b.pending| == |a.pending| - Count(ds, Withdrawals) - |Accepted(a, b, pnis)| + Count(ds, Invites)
  {
    hide Start, AfterMembers, Details, ListDetails, Count, NewIds, Gone, Keys, Unique, UsesPni, TakenUp, Accepted;
    var l := Start(a, b, pnis);
    StartIsUnique(a, b, pnis);
    var l' := AfterMembers(l, b.members);
    AfterMembersSpec(l, b.members);
    CountDetails(a, b, pnis, Invites);
    CountDetails(a, b, pnis, Withdrawals);
    CountLists(l, b, Invites);
    CountLists(l, b, Withdrawals);
    GoneIds(l'.pending, b.pending);
    AddedIds(l'.pending, b.pending);
    var taken := Accepted(a, b, pnis);
    AcceptedRest(a, b, pnis, Keys(l'.pending));
    hide *;
    UniqueSize(Gone(l'.pending, b.pending));
    UniqueSize(a.pending);
    UniqueSize(b.pending);
    SizeAfterTaking(Keys(a.pending), taken, Keys(l'.pending), Keys(b.pending));
  }

  /** Conservation of requests: those whose author is now a member are told as neither. */
  lemma RequestsConserved(a: Group, b: Group, pnis: Dict<Aci, Pni>)
    requires UniqueLists(a) && UniqueLists(b)
    ensures var ds := Details(a, b, pnis);
            |b.approvals| == |a.approvals| - Count(ds, Dismissals) - |Keys(a.approvals) * Keys(b.members)|
                             + Count(ds, Requests)
  {
    hide Start, AfterMembers, Details, ListDetails, Count, NewIds, Gone, Keys, Unique, UsesPni, TakenUp, Accepted;
    var l := Start(a, b, pnis);
    StartIsUnique(a, b, pnis);
    var l' := AfterMembers(l, b.members);
    AfterMembersSpec(l, b.members);
    CountDetails(a, b, pnis, Requests);
    CountDetails(a, b, pnis, Dismissals);
    CountLists(l, b, Requests);
    CountLists(l, b, Dismissals);
    GoneIds(l'.approvals, b.approvals);
    AddedIds(l'.approvals, b.approvals);
    hide *;
    UniqueSize(Gone(l'.approvals, b.approvals));
    UniqueSize(a.approvals);
    UniqueSize(b.approvals);
    assert Keys(a.approvals) - Keys(b.members) == Keys(a.approvals) - Keys(a.approvals) * Keys(b.members);
    SizeAfterTaking(Keys(a.approvals), Keys(a.approvals) * Keys(b.members), Keys(l'.approvals), Keys(b.approvals));
  }
}
