/** What a group change makes of each single person, and exactly which changes apply. */
module GroupFates {
  import opened Options
  import opened ServiceIds
  import opened Dicts
  import opened GroupApply
  import opened GroupEffects

  // ----- the actions that name somebody -----

  function First<A, K(==)>(xs: seq<A>, key: A -> K, k: K): Option<A> {
    if xs == [] then None else if key(xs[0]) == k then Some(xs[0]) else First(xs[1..], key, k)
  }

  function Last<A, K(==)>(xs: seq<A>, key: A -> K, k: K): Option<A> {
    if xs == [] then None
    else if Last(xs[1..], key, k).Some? then Last(xs[1..], key, k)
    else if key(xs[0]) == k then Some(xs[0])
    else None
  }

  lemma {:induction false} FirstIff<A, K>(xs: seq<A>, key: A -> K, k: K)
    ensures First(xs, key, k).Some? <==> k in Image(xs, key)
    ensures Last(xs, key, k).Some? <==> k in Image(xs, key)
  {
    if xs != [] {
      FirstIff(xs[1..], key, k);
    }
  }

  function InviteOf(x: AddPendingAction): PendingMember { PendingMember(x.addedBy, x.timestamp, OrDefault(x.role)) }
  function BannedId(x: BanAction): ServiceId { x.serviceId }

  // ----- the lists as a whole -----

  function MembersOf(w: Work): (Dict<Aci, Member>, nat) { (w.members, w.version) }
  function PendingOf(w: Work): Dict<ServiceId, PendingMember> { w.pending }
  function ApprovalsOf(w: Work): Dict<Aci, nat> { w.approvals }
  function PromotedOf(w: Work): Dict<Aci, Pni> { w.promoted }

  lemma ListSteps()
    ensures Keeps(ModifyProfileKey, MembersOf) && Keeps(AddPending, MembersOf) && Keeps(DeletePending, MembersOf)
    ensures Keeps(AddApproval, MembersOf) && Keeps(DeleteApproval, MembersOf)
    ensures Keeps(AddBanned, MembersOf) && Keeps(DeleteBanned, MembersOf)
    ensures Keeps(DeleteMember, PendingOf) && Keeps(ModifyRole, PendingOf) && Keeps(ModifyProfileKey, PendingOf)
    ensures Keeps(AddApproval, PendingOf) && Keeps(DeleteApproval, PendingOf) && Keeps(PromoteApproval, PendingOf)
    ensures Keeps(AddBanned, PendingOf) && Keeps(DeleteBanned, PendingOf)
    ensures Keeps(AddMember, ApprovalsOf) && Keeps(DeleteMember, ApprovalsOf) && Keeps(ModifyRole, ApprovalsOf)
    ensures Keeps(ModifyProfileKey, ApprovalsOf) && Keeps(AddPending, ApprovalsOf) && Keeps(DeletePending, ApprovalsOf)
    ensures Keeps(PromotePending, ApprovalsOf) && Keeps(PromotePni, ApprovalsOf)
    ensures Keeps(AddBanned, ApprovalsOf) && Keeps(DeleteBanned, ApprovalsOf)
  {
    hide Keys, Put, Remove, Get, Has;
  }

  // ----- one kind of action and one person -----

  function Added(w: Work, x: AddMemberAction): Member {
    Member(OrDefault(x.role), w.version, x.joinFromInviteLink, false)
  }

  lemma {:induction false} FoldAddOne(o: Outcome, xs: seq<AddMemberAction>, aci: Aci, id: ServiceId)
    requires o.Done?
    ensures var r := Fold(o, xs, AddMember);
            && r.Done? && r.work.version == o.work.version
            && Get(r.work.members, aci) ==
                 (match Get(o.work.members, aci)
                  case Some(m) => Some(m)
                  case None => match First(xs, AddedAci, aci)
                               case None => None
                               case Some(x) => Some(Added(o.work, x)))
            && Get(r.work.pending, id) ==
                 if id.OfAci? && id.aci in Image(xs, AddedAci) && id.aci !in Keys(o.work.members) then None
                 else Get(o.work.pending, id)
    decreases |xs|
  {
    if xs != [] {
      var x := xs[0];
      var o' := AddMember(o.work, x);
      FoldAddOne(o', xs[1..], aci, id);
      PutGet(o.work.members, x.aci, Added(o.work, x), aci);
      RemoveGet(o.work.pending, OfAci(x.aci), id);
      hide Get, Put, Remove;
    }
  }

  lemma {:induction false} FoldDeleteOne(o: Outcome, xs: seq<Aci>, aci: Aci)
    requires o.Done?
    ensures var r := Fold(o, xs, DeleteMember);
            && r.Done? && r.work.version == o.work.version
            && Get(r.work.members, aci) == if aci in xs then None else Get(o.work.members, aci)
    decreases |xs|
  {
    if xs != [] {
      FoldDeleteOne(DeleteMember(o.work, xs[0]), xs[1..], aci);
      RemoveGet(o.work.members, xs[0], aci);
      hide Get, Remove;
    }
  }

  /** A change of roles applies exactly when each one is a role and for a member; the last one counts. */
  lemma {:induction false} FoldRoleOne(o: Outcome, xs: seq<RoleAction>, aci: Aci)
    requires o.Done?
    ensures var r := Fold(o, xs, ModifyRole);
            && (r.Done? <==> forall x :: x in xs ==> x.role != 0 && x.aci in Keys(o.work.members))
            && (r.Done? ==>
                  && r.work.version == o.work.version && Keys(r.work.members) == Keys(o.work.members)
                  && Get(r.work.members, aci) ==
                       match Get(o.work.members, aci)
                       case None => None
                       case Some(m) => match Last(xs, RoleAci, aci)
                                       case None => Some(m)
                                       case Some(x) => Some(m.(role := x.role)))
    decreases |xs|
  {
    if xs != [] {
      var x := xs[0];
      var o' := ModifyRole(o.work, x);
      assert o'.Done? <==> x.role != 0 && x.aci in Keys(o.work.members);
      if o'.Done? {
        var m := Get(o.work.members, x.aci).value;
        assert Keys(o'.work.members) == Keys(o.work.members) + {x.aci} == Keys(o.work.members);
        FoldRoleOne(o', xs[1..], aci);
        PutGet(o.work.members, x.aci, m.(role := x.role), aci);
        assert xs == [x] + xs[1..];
        hide Get, Put, Keys;
      }
    }
  }

  lemma {:induction false} FoldInviteOne(o: Outcome, xs: seq<AddPendingAction>, id: ServiceId)
    requires o.Done?
    ensures var r := Fold(o, xs, AddPending);
            && r.Done?
            && Get(r.work.pending, id) ==
                 match Get(o.work.pending, id)
                 case Some(p) => Some(p)
                 case None =>
                   if id.OfAci? && id.aci in Keys(o.work.members) then None
                   else match First(xs, InviteId, id)
                        case None => None
                        case Some(x) => Some(InviteOf(x))
    decreases |xs|
  {
    if xs != [] {
      var x := xs[0];
      FoldInviteOne(AddPending(o.work, x), xs[1..], id);
      PutGet(o.work.pending, x.serviceId, InviteOf(x), id);
      hide Get, Put;
    }
  }

  lemma {:induction false} FoldWithdrawOne(o: Outcome, xs: seq<ServiceId>, id: ServiceId)
    requires o.Done?
    ensures var r := Fold(o, xs, DeletePending);
            r.Done? && Get(r.work.pending, id) == if id in xs then None else Get(o.work.pending, id)
    decreases |xs|
  {
    if xs != [] {
      FoldWithdrawOne(DeletePending(o.work, xs[0]), xs[1..], id);
      RemoveGet(o.work.pending, xs[0], id);
      hide Get, Remove;
    }
  }

  /** A member by promotion: with the role of the invitation. */
  function ByInvite(w: Work, p: Option<PendingMember>): Option<Member> {
    match p
    case None => None
    case Some(i) => Some(Member(OrDefault(i.role), w.version, false, false))
  }

  lemma PromoteOne(w: Work, id: ServiceId, aci: Aci, profileKey: string, other: Aci, invite: ServiceId)
    ensures var r := Promote(w, id, aci, profileKey);
            && (r.Done? <==> aci in Keys(w.members) || id in Keys(w.pending))
            && (r.Done? ==>
                  && r.work.version == w.version
                  && Keys(r.work.members) == Keys(w.members) + {aci} && Keys(r.work.pending) == Keys(w.pending) - {id}
                  && Get(r.work.members, other) ==
                       (if other == aci && other !in Keys(w.members) then ByInvite(w, Get(w.pending, id))
                        else Get(w.members, other))
                  && Get(r.work.pending, invite) == if invite == id then None else Get(w.pending, invite))
  {
    RemoveGet(w.pending, id, invite);
    if Get(w.pending, id).Some? {
      PutGet(w.members, aci, Member(OrDefault(Get(w.pending, id).value.role), w.version, false, false), other);
    }
  }

  lemma {:induction false} FoldPromoteOne(o: Outcome, xs: seq<KeyAction>, aci: Aci, id: ServiceId)
    requires o.Done?
    ensures var r := Fold(o, xs, PromotePending);
            && (r.Done? <==>
                  forall x :: x in xs ==> x.aci in Keys(o.work.members) || OfAci(x.aci) in Keys(o.work.pending))
            && (r.Done? ==>
                  && r.work.version == o.work.version && r.work.promoted == o.work.promoted
                  && Get(r.work.members, aci) ==
                       (match Get(o.work.members, aci)
                        case Some(m) => Some(m)
                        case None => if First(xs, KeyAci, aci).None? then None
                                     else ByInvite(o.work, Get(o.work.pending, OfAci(aci))))
                  && Get(r.work.pending, id) == if id in Image(xs, KeyInvite) then None else Get(o.work.pending, id))
    decreases |xs|
  {
    if xs != [] {
      var x := xs[0];
      var o' := PromotePending(o.work, x);
      PromoteOne(o.work, OfAci(x.aci), x.aci, x.profileKey, aci, id);
      PromoteOne(o.work, OfAci(x.aci), x.aci, x.profileKey, aci, OfAci(aci));
      assert xs == [x] + xs[1..];
      if o'.Done? {
        FoldPromoteOne(o', xs[1..], aci, id);
        hide Get, Keys, Promote;
      }
    }
  }

  /** The `i`th promotion of a PNI finds its person among the members, or its invitation still there. */
  predicate CanPromote(members: set<Aci>, pending: set<ServiceId>, xs: seq<PniAction>, i: nat)
    requires i < |xs|
  {
    || xs[i].aci in members || xs[i].aci in Image(xs[..i], PniAci)
    || (OfPni(xs[i].pni) in pending && OfPni(xs[i].pni) !in Image(xs[..i], PniInvite))
  }

  predicate CanPromoteAll(members: set<Aci>, pending: set<ServiceId>, xs: seq<PniAction>) {
    forall i :: 0 <= i < |xs| ==> CanPromote(members, pending, xs, i)
  }

  lemma CanPromoteFirst(members: set<Aci>, pending: set<ServiceId>, xs: seq<PniAction>)
    requires xs != []
    ensures var x := xs[0];
            CanPromoteAll(members, pending, xs) <==>
              && (x.aci in members || OfPni(x.pni) in pending)
              && CanPromoteAll(members + {x.aci}, pending - {OfPni(x.pni)}, xs[1..])
  {
    var x, rest := xs[0], xs[1..];
    assert xs[..0] == [];
    assert CanPromote(members, pending, xs, 0) <==> x.aci in members || OfPni(x.pni) in pending;
    forall i | 0 < i < |xs|
      ensures CanPromote(members, pending, xs, i) <==>
                CanPromote(members + {x.aci}, pending - {OfPni(x.pni)}, rest, i - 1)
    {
      assert xs[..i][1..] == rest[..i - 1] && xs[i] == rest[i - 1];
      assert Image(xs[..i], PniAci) == {x.aci} + Image(rest[..i - 1], PniAci);
      assert Image(xs[..i], PniInvite) == {OfPni(x.pni)} + Image(rest[..i - 1], PniInvite);
    }
    hide CanPromote;
    if CanPromoteAll(members, pending, xs) {
      forall i | 0 <= i < |rest| ensures CanPromote(members + {x.aci}, pending - {OfPni(x.pni)}, rest, i) {
        assert CanPromote(members, pending, xs, i + 1);
      }
    }
  }

  lemma {:induction false} FoldPniDone(o: Outcome, xs: seq<PniAction>)
    requires o.Done?
    ensures Fold(o, xs, PromotePni).Done? <==> CanPromoteAll(Keys(o.work.members), Keys(o.work.pending), xs)
    decreases |xs|
  {
    if xs != [] {
      var x := xs[0];
      var o' := PromotePni(o.work, x);
      var w := o.work.(promoted := Put(o.work.promoted, x.aci, x.pni));
      PromoteOne(w, OfPni(x.pni), x.aci, x.profileKey, x.aci, OfPni(x.pni));
      CanPromoteFirst(Keys(o.work.members), Keys(o.work.pending), xs);
      hide Get, Keys, Promote, CanPromoteAll;
      if o'.Done? {
        FoldPniDone(o', xs[1..]);
      }
    }
  }

  lemma {:induction false} FoldPniOne(o: Outcome, xs: seq<PniAction>, aci: Aci, id: ServiceId)
    requires Fold(o, xs, PromotePni).Done?
    ensures var r := Fold(o, xs, PromotePni);
            && o.Done? && r.work.version == o.work.version
            && Get(r.work.members, aci) ==
                 (match Get(o.work.members, aci)
                  case Some(m) => Some(m)
                  case None => match First(xs, PniAci, aci)
                               case None => None
                               case Some(x) => ByInvite(o.work, Get(o.work.pending, OfPni(x.pni))))
            && Get(r.work.pending, id) == (if id in Image(xs, PniInvite) then None else Get(o.work.pending, id))
            && Get(r.work.promoted, aci) ==
                 match Last(xs, PniAci, aci)
                 case None => Get(o.work.promoted, aci)
                 case Some(x) => Some(x.pni)
    decreases |xs|
  {
    if o.Done? && xs != [] {
      var x, rest := xs[0], xs[1..];
      var o' := PromotePni(o.work, x);
      var w := o.work.(promoted := Put(o.work.promoted, x.aci, x.pni));
      FoldPniOne(o', rest, aci, id);
      PutGet(o.work.promoted, x.aci, x.pni, aci);
      PromoteOne(w, OfPni(x.pni), x.aci, x.profileKey, aci, id);
      FirstIff(rest, PniAci, aci);
      MemberSteps();
      FoldAdds(o', rest, PromotePni, MemberIds, PniAci);
      if First(rest, PniAci, aci).Some? {
        PromoteOne(w, OfPni(x.pni), x.aci, x.profileKey, aci, OfPni(First(rest, PniAci, aci).value.pni));
      }
      hide Get, Keys, Promote, Adds, Takes, Keeps, Put;
    }
  }

  lemma {:induction false} FoldRequestOne(o: Outcome, xs: seq<ApprovalAction>, aci: Aci)
    requires o.Done?
    ensures var r := Fold(o, xs, AddApproval);
            && r.Done?
            && Get(r.work.approvals, aci) ==
                 match Get(o.work.approvals, aci)
                 case Some(t) => Some(t)
                 case None =>
                   if aci in Keys(o.work.members) || OfAci(aci) in Keys(o.work.pending) then None
                   else match First(xs, RequestAci, aci)
                        case None => None
                        case Some(x) => Some(x.timestamp)
    decreases |xs|
  {
    if xs != [] {
      var x := xs[0];
      FoldRequestOne(AddApproval(o.work, x), xs[1..], aci);
      PutGet(o.work.approvals, x.aci, x.timestamp, aci);
      hide Get, Put;
    }
  }

  lemma {:induction false} FoldDenyOne(o: Outcome, xs: seq<Aci>, aci: Aci)
    requires o.Done?
    ensures var r := Fold(o, xs, DeleteApproval);
            r.Done? && Get(r.work.approvals, aci) == if aci in xs then None else Get(o.work.approvals, aci)
    decreases |xs|
  {
    if xs != [] {
      FoldDenyOne(DeleteApproval(o.work, xs[0]), xs[1..], aci);
      RemoveGet(o.work.approvals, xs[0], aci);
      hide Get, Remove;
    }
  }

  function Approved(w: Work, x: RoleAction): Member {
    Member(OrDefault(x.role), w.version, false, true)
  }

  lemma {:induction false} FoldApproveOne(o: Outcome, xs: seq<RoleAction>, aci: Aci)
    requires o.Done?
    ensures var r := Fold(o, xs, PromoteApproval);
            && r.Done? && r.work.version == o.work.version
            && Get(r.work.members, aci) ==
                 (match Get(o.work.members, aci)
                  case Some(m) => Some(m)
                  case None => match First(xs, RoleAci, aci)
                               case None => None
                               case Some(x) => Some(Approved(o.work, x)))
            && Get(r.work.approvals, aci) == if aci in Image(xs, RoleAci) then None else Get(o.work.approvals, aci)
    decreases |xs|
  {
    if xs != [] {
      var x := xs[0];
      FoldApproveOne(PromoteApproval(o.work, x), xs[1..], aci);
      PutGet(o.work.members, x.aci, Approved(o.work, x), aci);
      RemoveGet(o.work.approvals, x.aci, aci);
      hide Get, Put, Remove;
    }
  }

  lemma {:induction false} BansDone(o: Outcome, adds: seq<BanAction>, lifts: seq<ServiceId>)
    requires o.Done?
    ensures Fold(o, adds, AddBanned).Done? && Fold(o, lifts, DeleteBanned).Done?
    decreases |adds|, |lifts|
  {
    if adds != [] {
      BansDone(AddBanned(o.work, adds[0]), adds[1..], lifts);
      hide Has, Put, Remove;
    }
    if lifts != [] {
      BansDone(DeleteBanned(o.work, lifts[0]), [], lifts[1..]);
    }
  }

  // ----- before the promotions -----

  function BeforePromotions(w: Work, a: Actions): Outcome {
    var o1 := Fold(Done(w), a.addMembers, AddMember);
    var o2 := Fold(o1, a.deleteMembers, DeleteMember);
    var o3 := Fold(o2, a.modifyRoles, ModifyRole);
    var o4 := Fold(o3, a.modifyProfileKeys, ModifyProfileKey);
    var o5 := Fold(o4, a.addPending, AddPending);
    Fold(o5, a.deletePending, DeletePending)
  }

  /** Who is a member before the promotions: the old ones and those added, less those removed. */
  function Present(members: set<Aci>, a: Actions): set<Aci> {
    members + Image(a.addMembers, AddedAci) - Image(a.deleteMembers, SameAci)
  }

  /** Who is invited before the promotions. */
  function Invited(members: set<Aci>, pending: set<ServiceId>, a: Actions): set<ServiceId> {
    Uninvited(pending, Image(a.addMembers, AddedAci) - members)
    + Invitable(Image(a.addPending, InviteId), Present(members, a)) - Image(a.deletePending, SameId)
  }

  /** Every role set is a role, and for somebody who is a member by then. */
  predicate RolesFit(members: set<Aci>, a: Actions) {
    forall x :: x in a.modifyRoles ==> x.role != 0 && x.aci in Present(members, a)
  }

  /** The record of `aci` before the promotions: the old one, else the first addition; none if removed;
      with the last role set. */
  function Prepared(before: Option<Member>, version: nat, a: Actions, aci: Aci): Option<Member> {
    var joined := match before
                  case Some(m) => Some(m)
                  case None => match First(a.addMembers, AddedAci, aci)
                               case None => None
                               case Some(x) =>
                                 Some(Member(OrDefault(x.role), version, x.joinFromInviteLink, false));
    if aci in a.deleteMembers then None else
    match joined
    case None => None
    case Some(m) => match Last(a.modifyRoles, RoleAci, aci)
                    case None => Some(m)
                    case Some(x) => Some(m.(role := x.role))
  }

  /** The invitation of `id` before the promotions: the old one unless its ACI was added directly, else
      the first new one unless its ACI is a member; none if withdrawn. */
  function Standing(members: set<Aci>, before: Option<PendingMember>, a: Actions, id: ServiceId)
    : Option<PendingMember>
  {
    if id in a.deletePending then None
    else if before.Some? && !(id.OfAci? && id.aci in Image(a.addMembers, AddedAci) - members) then before
    else if id.OfAci? && id.aci in Present(members, a) then None
    else match First(a.addPending, InviteId, id)
         case None => None
         case Some(x) => Some(InviteOf(x))
  }

  lemma {:induction false} SameImage<K>(xs: seq<K>, same: K -> K, k: K)
    requires forall x :: same(x) == x
    ensures k in Image(xs, same) <==> k in xs
  {
    if xs != [] {
      SameImage(xs[1..], same, k);
    }
  }

  lemma PromotedSteps()
    ensures Keeps(AddMember, PromotedOf) && Keeps(DeleteMember, PromotedOf) && Keeps(ModifyRole, PromotedOf)
    ensures Keeps(ModifyProfileKey, PromotedOf) && Keeps(AddPending, PromotedOf) && Keeps(DeletePending, PromotedOf)
    ensures Keeps(PromotePending, PromotedOf) && Keeps(AddApproval, PromotedOf) && Keeps(DeleteApproval, PromotedOf)
    ensures Keeps(PromoteApproval, PromotedOf) && Keeps(AddBanned, PromotedOf) && Keeps(DeleteBanned, PromotedOf)
  {
    hide Keys, Put, Remove, Get, Has;
  }

  lemma {:induction false} KeysDone(o: Outcome, xs: seq<KeyAction>)
    requires o.Done?
    ensures Fold(o, xs, ModifyProfileKey).Done?
    decreases |xs|
  {
    if xs != [] {
      KeysDone(ModifyProfileKey(o.work, xs[0]), xs[1..]);
    }
  }

  lemma ThrewStays<A>(o: Outcome, xs: seq<A>, step: (Work, A) -> Outcome)
    requires o.Threw?
    ensures Fold(o, xs, step) == o
  {
  }

  /** After additions and removals. */
  lemma AddsDone(w: Work, a: Actions, aci: Aci, id: ServiceId)
    ensures var o2 := Fold(Fold(Done(w), a.addMembers, AddMember), a.deleteMembers, DeleteMember);
            && o2.Done? && o2.work.version == w.version
            && o2.work.approvals == w.approvals && o2.work.promoted == w.promoted
            && Keys(o2.work.members) == Present(Keys(w.members), a)
            && Get(o2.work.members, aci) ==
                 (if aci in a.deleteMembers then None
                  else match Get(w.members, aci)
                       case Some(m) => Some(m)
                       case None => match First(a.addMembers, AddedAci, aci)
                                    case None => None
                                    case Some(x) => Some(Added(w, x)))
            && Get(o2.work.pending, id) ==
                 if id.OfAci? && id.aci in Image(a.addMembers, AddedAci) - Keys(w.members) then None
                 else Get(w.pending, id)
  {
    MemberSteps();
    ListSteps();
    PromotedSteps();
    hide Adds, Takes, Keeps, Fold, Image, First, Get;
    var o1 := Fold(Done(w), a.addMembers, AddMember);
    FoldAddOne(Done(w), a.addMembers, aci, id);
    FoldDeleteOne(o1, a.deleteMembers, aci);
    FoldAdds(Done(w), a.addMembers, AddMember, MemberIds, AddedAci);
    FoldTakes(o1, a.deleteMembers, DeleteMember, MemberIds, SameAci);
    hide Keys;
    FoldKeeps(Done(w), a.addMembers, AddMember, ApprovalsOf);
    FoldKeeps(o1, a.deleteMembers, DeleteMember, ApprovalsOf);
    FoldKeeps(Done(w), a.addMembers, AddMember, PromotedOf);
    FoldKeeps(o1, a.deleteMembers, DeleteMember, PromotedOf);
    FoldKeeps(o1, a.deleteMembers, DeleteMember, PendingOf);
  }

  lemma PreparedSpec(w: Work, a: Actions, aci: Aci, id: ServiceId)
    ensures var o := BeforePromotions(w, a);
            && (o.Done? <==> RolesFit(Keys(w.members), a))
            && (o.Done? ==>
                  && o.work.version == w.version && o.work.approvals == w.approvals && o.work.promoted == w.promoted
                  && Get(o.work.members, aci) == Prepared(Get(w.members, aci), w.version, a, aci)
                  && Get(o.work.pending, id) == Standing(Keys(w.members), Get(w.pending, id), a, id))
  {
    MemberSteps();
    ListSteps();
    PromotedSteps();
    AddsDone(w, a, aci, id);
    hide Adds, Takes, Keeps, Fold, Image, First, Last, Keys, Get;
    var o1 := Fold(Done(w), a.addMembers, AddMember);
    var o2 := Fold(o1, a.deleteMembers, DeleteMember);
    var o3 := Fold(o2, a.modifyRoles, ModifyRole);
    var o4 := Fold(o3, a.modifyProfileKeys, ModifyProfileKey);
    var o5 := Fold(o4, a.addPending, AddPending);
    FoldRoleOne(o2, a.modifyRoles, aci);
    if o3.Done? {
      KeysDone(o3, a.modifyProfileKeys);
      FoldKeeps(o3, a.modifyProfileKeys, ModifyProfileKey, MembersOf);
      FoldKeeps(o3, a.modifyProfileKeys, ModifyProfileKey, PendingOf);
      FoldKeeps(o3, a.modifyProfileKeys, ModifyProfileKey, ApprovalsOf);
      FoldKeeps(o3, a.modifyProfileKeys, ModifyProfileKey, PromotedOf);
      FoldKeeps(o2, a.modifyRoles, ModifyRole, PendingOf);
      FoldKeeps(o2, a.modifyRoles, ModifyRole, ApprovalsOf);
      FoldKeeps(o2, a.modifyRoles, ModifyRole, PromotedOf);
      FoldInviteOne(o4, a.addPending, id);
      FoldKeeps(o4, a.addPending, AddPending, MembersOf);
      FoldKeeps(o4, a.addPending, AddPending, ApprovalsOf);
      FoldKeeps(o4, a.addPending, AddPending, PromotedOf);
      FoldWithdrawOne(o5, a.deletePending, id);
      FoldKeeps(o5, a.deletePending, DeletePending, MembersOf);
      FoldKeeps(o5, a.deletePending, DeletePending, ApprovalsOf);
      FoldKeeps(o5, a.deletePending, DeletePending, PromotedOf);
    } else {
      ThrewStays(o3, a.modifyProfileKeys, ModifyProfileKey);
      ThrewStays(o4, a.addPending, AddPending);
      ThrewStays(o5, a.deletePending, DeletePending);
    }
  }

  // ----- the whole change -----

  lemma EarlyIsBefore(w: Work, a: Actions)
    ensures EarlyWork(w, a) == Fold(BeforePromotions(w, a), a.promotePending, PromotePending)
  {
  }

  lemma PreparedKeys(w: Work, a: Actions)
    requires BeforePromotions(w, a).Done?
    ensures var o := BeforePromotions(w, a);
            && Keys(o.work.members) == Present(Keys(w.members), a)
            && Keys(o.work.pending) == Invited(Keys(w.members), Keys(w.pending), a)
  {
    MemberSteps();
    PendingSteps();
    hide Adds, Takes, Keeps, Fold, Image, MemberIds, PendingIds, Uninvited, Invitable;
    var o1 := Fold(Done(w), a.addMembers, AddMember);
    var o2 := Fold(o1, a.deleteMembers, DeleteMember);
    var o3 := Fold(o2, a.modifyRoles, ModifyRole);
    var o4 := Fold(o3, a.modifyProfileKeys, ModifyProfileKey);
    var o5 := Fold(o4, a.addPending, AddPending);
    FoldTakes(o5, a.deletePending, DeletePending, PendingIds, SameId);
    FoldKeeps(o5, a.deletePending, DeletePending, MemberIds);
    FoldAddPending(o4, a.addPending);
    FoldKeeps(o4, a.addPending, AddPending, MemberIds);
    FoldKeeps(o3, a.modifyProfileKeys, ModifyProfileKey, PendingIds);
    FoldKeeps(o3, a.modifyProfileKeys, ModifyProfileKey, MemberIds);
    FoldKeeps(o2, a.modifyRoles, ModifyRole, PendingIds);
    FoldKeeps(o2, a.modifyRoles, ModifyRole, MemberIds);
    FoldKeeps(o1, a.deleteMembers, DeleteMember, PendingIds);
    FoldTakes(o1, a.deleteMembers, DeleteMember, MemberIds, SameAci);
    FoldAddMembers(Done(w), a.addMembers);
    FoldAdds(Done(w), a.addMembers, AddMember, MemberIds, AddedAci);
    MemberIdsAre(w);
    MemberIdsAre(BeforePromotions(w, a).work);
  }

  lemma MemberIdsAre(w: Work)
    ensures MemberIds(w) == Keys(w.members) && PendingIds(w) == Keys(w.pending)
  {
  }

  /** The record of `aci` after the change: the one before the promotions; else by promotion of its
      invitation, of the invitation of its PNI, or of its request, in this order, the first action of a
      kind counting. */
  ghost function MemberFate(g: Group, a: Actions, aci: Aci): Option<Member> {
    var version := if a.version.Some? then a.version.value else 0;
    var members := Keys(g.members);
    var before := Prepared(Get(FromPairs(g.members), aci), version, a, aci);
    var invite := if aci in Image(a.promotePending, KeyAci) then Some(OfAci(aci))
                  else match First(a.promotePni, PniAci, aci)
                       case None => None
                       case Some(x) => Some(OfPni(x.pni));
    if before.Some? then before
    else if invite.Some? then
      match Standing(members, Get(FromPairs(g.pending), invite.value), a, invite.value)
      case None => None
      case Some(p) => Some(Member(OrDefault(p.role), version, false, false))
    else
      match First(a.promoteApprovals, RoleAci, aci)
      case None => None
      case Some(x) => Some(Member(OrDefault(x.role), version, false, true))
  }

  function InviteFate(g: Group, a: Actions, id: ServiceId): Option<PendingMember> {
    if id in Image(a.promotePending, KeyInvite) + Image(a.promotePni, PniInvite) then None
    else Standing(Keys(g.members), Get(FromPairs(g.pending), id), a, id)
  }

  /** Every promotion finds a member, or an invitation to take up. */
  predicate PromotionsFit(members: set<Aci>, pending: set<ServiceId>, a: Actions) {
    var present, invited := Present(members, a), Invited(members, pending, a);
    && (forall x :: x in a.promotePending ==> x.aci in present || OfAci(x.aci) in invited)
    && CanPromoteAll(present + Image(a.promotePending, KeyAci), invited, a.promotePni)
  }

  lemma CanPromoteSame(members: set<Aci>, p: set<ServiceId>, q: set<ServiceId>, xs: seq<PniAction>)
    requires forall pni :: OfPni(pni) in p <==> OfPni(pni) in q
    ensures CanPromoteAll(members, p, xs) <==> CanPromoteAll(members, q, xs)
  {
    assert forall i :: 0 <= i < |xs| ==> (CanPromote(members, p, xs, i) <==> CanPromote(members, q, xs, i));
    hide CanPromote;
  }

  lemma {:induction false} NoPniInvites(xs: seq<KeyAction>, pni: Pni)
    ensures OfPni(pni) !in Image(xs, KeyInvite)
  {
    if xs != [] {
      NoPniInvites(xs[1..], pni);
    }
  }

  lemma RequestsDone(o: Outcome, adds: seq<ApprovalAction>, denies: seq<Aci>, approves: seq<RoleAction>)
    requires o.Done?
    ensures Fold(Fold(Fold(o, adds, AddApproval), denies, DeleteApproval), approves, PromoteApproval).Done?
  {
    hide Fold;
    FoldRequestOne(o, adds, 0);
    FoldDenyOne(Fold(o, adds, AddApproval), denies, 0);
    FoldApproveOne(Fold(Fold(o, adds, AddApproval), denies, DeleteApproval), approves, 0);
  }

  lemma LateDone(o: Outcome, a: Actions)
    ensures LateWork(o, a).Done? <==> Fold(o, a.promotePni, PromotePni).Done?
  {
    hide Fold;
    var o8 := Fold(o, a.promotePni, PromotePni);
    var o9 := Fold(o8, a.addApprovals, AddApproval);
    var o10 := Fold(o9, a.deleteApprovals, DeleteApproval);
    var o11 := Fold(o10, a.promoteApprovals, PromoteApproval);
    var o12 := Fold(o11, a.addBanned, AddBanned);
    if o8.Done? {
      RequestsDone(o8, a.addApprovals, a.deleteApprovals, a.promoteApprovals);
      BansDone(o11, a.addBanned, []);
      BansDone(o12, [], a.deleteBanned);
    } else {
      ThrewStays(o8, a.addApprovals, AddApproval);
      ThrewStays(o9, a.deleteApprovals, DeleteApproval);
      ThrewStays(o10, a.promoteApprovals, PromoteApproval);
      ThrewStays(o11, a.addBanned, AddBanned);
      ThrewStays(o12, a.deleteBanned, DeleteBanned);
    }
  }

  lemma EarlyDone(w: Work, a: Actions)
    ensures var invited := Invited(Keys(w.members), Keys(w.pending), a);
            EarlyWork(w, a).Done? <==>
              && RolesFit(Keys(w.members), a)
              && forall x :: x in a.promotePending ==>
                   x.aci in Present(Keys(w.members), a) || OfAci(x.aci) in invited
  {
    hide Fold, BeforePromotions, Keys, Get, RolesFit, Invited, Present, EarlyWork;
    EarlyIsBefore(w, a);
    PreparedSpec(w, a, 0, OfAci(0));
    var o := BeforePromotions(w, a);
    if o.Done? {
      PreparedKeys(w, a);
      FoldPromoteOne(o, a.promotePending, 0, OfAci(0));
    } else {
      ThrewStays(o, a.promotePending, PromotePending);
    }
  }

  /** A change applies exactly when every role it sets is a role and for a member, and every promotion
      finds its person among the members or an invitation that is still there. Nothing else fails. */
  lemma AppliesIff(g: Group, a: Actions, source: ServiceId, us: Aci, known: set<Aci>)
    ensures ApplyChange(g, a, source, us, known).Some? <==>
              RolesFit(Keys(g.members), a) && PromotionsFit(Keys(g.members), Keys(g.pending), a)
  {
    var w := StartWork(g, a, source, us, known);
    FromPairsSpec(g.members);
    FromPairsSpec(g.pending);
    hide Fold, FromPairs, EarlyWork, LateWork, RolesFit, CanPromoteAll, Invited, Present, Keys, Image;
    EarlyDone(w, a);
    var o := EarlyWork(w, a);
    LateDone(o, a);
    if o.Done? {
      FoldPniDone(o, a.promotePni);
      EarlyKeys(w, a);
      forall pni ensures OfPni(pni) !in Image(a.promotePending, KeyInvite) {
        NoPniInvites(a.promotePending, pni);
      }
      CanPromoteSame(Keys(o.work.members), Keys(o.work.pending), Invited(Keys(g.members), Keys(g.pending), a),
                     a.promotePni);
    } else {
      ThrewStays(o, a.promotePni, PromotePni);
    }
  }

  lemma EarlyKeys(w: Work, a: Actions)
    requires EarlyWork(w, a).Done?
    ensures Keys(EarlyWork(w, a).work.members) == Present(Keys(w.members), a) + Image(a.promotePending, KeyAci)
    ensures Keys(EarlyWork(w, a).work.pending)
              == Invited(Keys(w.members), Keys(w.pending), a) - Image(a.promotePending, KeyInvite)
  {
    MemberSteps();
    PendingSteps();
    var o := BeforePromotions(w, a);
    hide Adds, Takes, Keeps, Fold, Image, Keys, Invited, Present, BeforePromotions, EarlyWork;
    EarlyIsBefore(w, a);
    FoldAdds(o, a.promotePending, PromotePending, MemberIds, KeyAci);
    FoldTakes(o, a.promotePending, PromotePending, PendingIds, KeyInvite);
    PreparedKeys(w, a);
  }

  // ----- each person -----

  lemma EarlyFate(w: Work, a: Actions, aci: Aci, id: ServiceId)
    requires EarlyWork(w, a).Done?
    ensures var r := EarlyWork(w, a).work;
            var before := Prepared(Get(w.members, aci), w.version, a, aci);
            var own := Standing(Keys(w.members), Get(w.pending, OfAci(aci)), a, OfAci(aci));
            && r.version == w.version && r.approvals == w.approvals && r.promoted == w.promoted
            && Get(r.members, aci) ==
                 (if before.Some? then before
                  else if aci in Image(a.promotePending, KeyAci) then ByInvite(w, own) else None)
            && Get(r.pending, id) ==
                 if id in Image(a.promotePending, KeyInvite) then None
                 else Standing(Keys(w.members), Get(w.pending, id), a, id)
  {
    ListSteps();
    var o := BeforePromotions(w, a);
    hide Fold, BeforePromotions, Keys, Get, RolesFit, EarlyWork, Prepared, Standing, First, Image, Keeps;
    EarlyIsBefore(w, a);
    if o.Threw? {
      ThrewStays(o, a.promotePending, PromotePending);
      assert false;
    }
    PreparedSpec(w, a, aci, id);
    PreparedSpec(w, a, aci, OfAci(aci));
    FoldPromoteOne(o, a.promotePending, aci, id);
    FirstIff(a.promotePending, KeyAci, aci);
    FoldKeeps(o, a.promotePending, PromotePending, ApprovalsOf);
  }

  lemma LateMember(o: Outcome, a: Actions, aci: Aci)
    requires LateWork(o, a).Done?
    ensures var x := First(a.promotePni, PniAci, aci);
            var mid := if x.None? then None else ByInvite(o.work, Get(o.work.pending, OfPni(x.value.pni)));
            && o.Done?
            && Get(LateWork(o, a).work.members, aci) ==
                 if Get(o.work.members, aci).Some? then Get(o.work.members, aci)
                 else if mid.Some? || x.Some? then mid
                 else match First(a.promoteApprovals, RoleAci, aci)
                      case None => None
                      case Some(y) => Some(Approved(o.work, y))
  {
    ListSteps();
    LateDone(o, a);
    LatePending(o, a);
    hide Keeps, Fold, Keys, Get, First, Last, Image;
    var o8 := Fold(o, a.promotePni, PromotePni);
    var o9 := Fold(o8, a.addApprovals, AddApproval);
    var o10 := Fold(o9, a.deleteApprovals, DeleteApproval);
    var o11 := Fold(o10, a.promoteApprovals, PromoteApproval);
    var o12 := Fold(o11, a.addBanned, AddBanned);
    FoldKeeps(o12, a.deleteBanned, DeleteBanned, MembersOf);
    FoldKeeps(o11, a.addBanned, AddBanned, MembersOf);
    RequestsDone(o8, a.addApprovals, a.deleteApprovals, []);
    FoldRequestOne(o8, a.addApprovals, aci);
    FoldDenyOne(o9, a.deleteApprovals, aci);
    FoldApproveOne(o10, a.promoteApprovals, aci);
    FoldKeeps(o9, a.deleteApprovals, DeleteApproval, MembersOf);
    FoldKeeps(o8, a.addApprovals, AddApproval, MembersOf);
    FoldPniOne(o, a.promotePni, aci, OfAci(aci));
    if First(a.promotePni, PniAci, aci).Some? {
      PniMembers(o, a.promotePni, aci);
    }
  }

  /** Whoever a promotion of a PNI names is a member after it. */
  lemma PniMembers(o: Outcome, xs: seq<PniAction>, aci: Aci)
    requires Fold(o, xs, PromotePni).Done? && First(xs, PniAci, aci).Some?
    ensures Get(Fold(o, xs, PromotePni).work.members, aci).Some?
  {
    MemberSteps();
    FirstIff(xs, PniAci, aci);
    hide Adds, Takes, Keeps, Fold;
    FoldAdds(o, xs, PromotePni, MemberIds, PniAci);
  }

  /** After any change that applies, from any group, the record of every single person is the one that
      its own actions make of it. */
  lemma EveryMember(g: Group, a: Actions, source: ServiceId, us: Aci, known: set<Aci>, aci: Aci)
    requires ApplyChange(g, a, source, us, known).Some?
    ensures Get(ApplyChange(g, a, source, us, known).value.group.members, aci) == MemberFate(g, a, aci)
  {
    var w := StartWork(g, a, source, us, known);
    FromPairsSpec(g.members);
    var o := EarlyWork(w, a);
    LateMember(o, a, aci);
    EarlyKeys(w, a);
    assert aci in Image(a.promotePending, KeyAci) ==> Get(o.work.members, aci).Some?;
    hide Fold, FromPairs, EarlyWork, LateWork, Keys, Get, Image, Prepared, Standing, First;
    EarlyFate(w, a, aci, OfAci(aci));
    if First(a.promotePni, PniAci, aci).Some? {
      var pni := First(a.promotePni, PniAci, aci).value.pni;
      EarlyFate(w, a, aci, OfPni(pni));
      NoPniInvites(a.promotePending, pni);
    }
  }

  lemma LateInvite(o: Outcome, a: Actions, id: ServiceId, aci: Aci)
    requires LateWork(o, a).Done?
    ensures o.Done?
    ensures Get(LateWork(o, a).work.pending, id) ==
              if id in Image(a.promotePni, PniInvite) then None else Get(o.work.pending, id)
    ensures Get(LateWork(o, a).work.promoted, aci) ==
              match Last(a.promotePni, PniAci, aci)
              case None => Get(o.work.promoted, aci)
              case Some(x) => Some(x.pni)
  {
    ListSteps();
    PromotedSteps();
    hide Keeps, Fold, Keys, Get, Last, Image;
    var o8 := Fold(o, a.promotePni, PromotePni);
    var o9 := Fold(o8, a.addApprovals, AddApproval);
    var o10 := Fold(o9, a.deleteApprovals, DeleteApproval);
    var o11 := Fold(o10, a.promoteApprovals, PromoteApproval);
    var o12 := Fold(o11, a.addBanned, AddBanned);
    FoldKeeps(o12, a.deleteBanned, DeleteBanned, PendingOf);
    FoldKeeps(o11, a.addBanned, AddBanned, PendingOf);
    FoldKeeps(o10, a.promoteApprovals, PromoteApproval, PendingOf);
    FoldKeeps(o9, a.deleteApprovals, DeleteApproval, PendingOf);
    FoldKeeps(o8, a.addApprovals, AddApproval, PendingOf);
    FoldKeeps(o12, a.deleteBanned, DeleteBanned, PromotedOf);
    FoldKeeps(o11, a.addBanned, AddBanned, PromotedOf);
    FoldKeeps(o10, a.promoteApprovals, PromoteApproval, PromotedOf);
    FoldKeeps(o9, a.deleteApprovals, DeleteApproval, PromotedOf);
    FoldKeeps(o8, a.addApprovals, AddApproval, PromotedOf);
    FoldPniOne(o, a.promotePni, aci, id);
  }

  /** The same for the invitation of every single id; and the PNI told with an ACI is the last one that
      the change promotes to it. */
  lemma EveryInvite(g: Group, a: Actions, source: ServiceId, us: Aci, known: set<Aci>, id: ServiceId, aci: Aci)
    requires ApplyChange(g, a, source, us, known).Some?
    ensures var r := ApplyChange(g, a, source, us, known).value;
            && Get(r.group.pending, id) == InviteFate(g, a, id)
            && Get(r.promoted, aci) == match Last(a.promotePni, PniAci, aci)
                                       case None => None
                                       case Some(x) => Some(x.pni)
  {
    var w := StartWork(g, a, source, us, known);
    FromPairsSpec(g.members);
    var o := EarlyWork(w, a);
    assert Get(w.promoted, aci) == None;
    hide Fold, FromPairs, EarlyWork, LateWork, Keys, Get, Image, Prepared, Standing, Last;
    LateInvite(o, a, id, aci);
    EarlyFate(w, a, aci, id);
  }

  /** The request of `aci` after the change: the old one, else the first new one unless it is then a
      member or invited; none once answered. */
  ghost function RequestFate(g: Group, a: Actions, aci: Aci): Option<nat> {
    var members := Present(Keys(g.members), a) + Image(a.promotePending, KeyAci) + Image(a.promotePni, PniAci);
    var before := Get(FromPairs(g.approvals), aci);
    if aci in a.deleteApprovals || aci in Image(a.promoteApprovals, RoleAci) then None
    else if before.Some? then before
    else if aci in members || OfAci(aci) in PendingAfter(Keys(g.members), Keys(g.pending), a) then None
    else match First(a.addApprovals, RequestAci, aci)
         case None => None
         case Some(x) => Some(x.timestamp)
  }

  lemma LateRequest(o: Outcome, a: Actions, aci: Aci)
    requires LateWork(o, a).Done?
    ensures o.Done?
    ensures Get(LateWork(o, a).work.approvals, aci) ==
              if aci in a.deleteApprovals || aci in Image(a.promoteApprovals, RoleAci) then None
              else if Get(o.work.approvals, aci).Some? then Get(o.work.approvals, aci)
              else if aci in Keys(o.work.members) + Image(a.promotePni, PniAci)
                      || OfAci(aci) in Keys(o.work.pending) - Image(a.promotePni, PniInvite) then None
              else match First(a.addApprovals, RequestAci, aci)
                   case None => None
                   case Some(x) => Some(x.timestamp)
  {
    ListSteps();
    MemberSteps();
    PendingSteps();
    LateDone(o, a);
    var o8 := Fold(o, a.promotePni, PromotePni);
    MemberIdsAre(o8.work);
    hide Adds, Takes, Keeps, Fold, Image, Keys, Get, First, MemberIds, PendingIds;
    var o9 := Fold(o8, a.addApprovals, AddApproval);
    var o10 := Fold(o9, a.deleteApprovals, DeleteApproval);
    var o11 := Fold(o10, a.promoteApprovals, PromoteApproval);
    var o12 := Fold(o11, a.addBanned, AddBanned);
    FoldKeeps(o12, a.deleteBanned, DeleteBanned, ApprovalsOf);
    FoldKeeps(o11, a.addBanned, AddBanned, ApprovalsOf);
    RequestsDone(o8, a.addApprovals, a.deleteApprovals, []);
    FoldApproveOne(o10, a.promoteApprovals, aci);
    FoldDenyOne(o9, a.deleteApprovals, aci);
    FoldRequestOne(o8, a.addApprovals, aci);
    FoldKeeps(o, a.promotePni, PromotePni, ApprovalsOf);
    FoldAdds(o, a.promotePni, PromotePni, MemberIds, PniAci);
    FoldTakes(o, a.promotePni, PromotePni, PendingIds, PniInvite);
    MemberIdsAre(o.work);
  }

  /** The same for every single request to join. */
  lemma EveryRequest(g: Group, a: Actions, source: ServiceId, us: Aci, known: set<Aci>, aci: Aci)
    requires ApplyChange(g, a, source, us, known).Some?
    ensures Get(ApplyChange(g, a, source, us, known).value.group.approvals, aci) == RequestFate(g, a, aci)
  {
    var w := StartWork(g, a, source, us, known);
    FromPairsSpec(g.members);
    FromPairsSpec(g.pending);
    var o := EarlyWork(w, a);
    hide Fold, FromPairs, EarlyWork, LateWork, Keys, Get, Image, Prepared, Standing, First, Invited;
    LateRequest(o, a, aci);
    EarlyFate(w, a, aci, OfAci(aci));
    EarlyKeys(w, a);
    InvitedAfter(Keys(g.members), Keys(g.pending), a);
  }

  lemma InvitedAfter(members: set<Aci>, pending: set<ServiceId>, a: Actions)
    ensures PendingAfter(members, pending, a)
              == Invited(members, pending, a) - Image(a.promotePending, KeyInvite) - Image(a.promotePni, PniInvite)
  {
    hide Image, Uninvited, Invitable;
  }

  lemma {:induction false} BansOne(banned: Dict<ServiceId, nat>, adds: seq<BanAction>, id: ServiceId)
    ensures Get(AfterBans(banned, adds), id) ==
              match Get(banned, id)
              case Some(t) => Some(t)
              case None => match First(adds, BannedId, id)
                           case None => None
                           case Some(x) => Some(x.timestamp)
    decreases |adds|
  {
    if adds != [] {
      var x := adds[0];
      BansOne(if Has(banned, x.serviceId) then banned else Put(banned, x.serviceId, x.timestamp), adds[1..], id);
      PutGet(banned, x.serviceId, x.timestamp, id);
      hide Get, Put;
    }
  }

  lemma {:induction false} LiftsOne(banned: Dict<ServiceId, nat>, ids: seq<ServiceId>, id: ServiceId)
    ensures Get(AfterLifts(banned, ids), id) == if id in ids then None else Get(banned, id)
    decreases |ids|
  {
    if ids != [] {
      LiftsOne(Remove(banned, ids[0]), ids[1..], id);
      RemoveGet(banned, ids[0], id);
      hide Get, Remove;
    }
  }

  /** The same for every single ban: the old one, else the first new one; none once lifted. */
  lemma EveryBan(g: Group, a: Actions, source: ServiceId, us: Aci, known: set<Aci>, id: ServiceId)
    requires ApplyChange(g, a, source, us, known).Some?
    ensures Get(ApplyChange(g, a, source, us, known).value.group.banned, id) ==
              if id in a.deleteBanned then None
              else match Get(FromPairs(g.banned), id)
                   case Some(t) => Some(t)
                   case None => match First(a.addBanned, BannedId, id)
                                case None => None
                                case Some(x) => Some(x.timestamp)
  {
    hide Get, FromPairs, ApplyChange, AfterBans, AfterLifts, First;
    BannedEffect(g, a, source, us, known);
    LiftsOne(AfterBans(FromPairs(g.banned), a.addBanned), a.deleteBanned, id);
    BansOne(FromPairs(g.banned), a.addBanned, id);
  }
}
